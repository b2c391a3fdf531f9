/** Event delivery over runs of posts, receptions by any number of groups, and retirements. */
module Deliveries {
  import opened Basics
  import opened Events

  /** Post: an event is emitted or signalled.  Ask: a group receives what is due to it.  Retire:
      the records that somebody has read are dropped. */
  datatype Op =
    | Post(kind: nat, scope: Scope, source: nat, payload: Payload)
    | Ask(q: Query)
    | Retire

  /** The records after one operation: see EventQueue.Post, Receive and RetireConsumed. */
  function After(rs: seq<Record>, op: Op): seq<Record> {
    match op
    case Post(kind, scope, source, payload) =>
      if |rs| < QUEUE_CAPACITY then rs + [Record(kind, scope, source, Truncated(payload), 0, [])] else rs
    case Ask(q) => Delivered(rs, q)
    case Retire => Unread(rs)
  }

  function AfterAll(rs: seq<Record>, ops: seq<Op>): seq<Record>
    decreases |ops|
  {
    if ops == [] then rs else AfterAll(After(rs, ops[0]), ops[1..])
  }

  // ------------------------------------------------------------------ read counts

  /** A record has been read if and only if it names a reader. */
  predicate Counted(rs: seq<Record>) {
    forall i {:trigger rs[i]} :: 0 <= i < |rs| ==> (rs[i].readCount == 0 <==> rs[i].consumers == [])
  }

  lemma {:induction false} UnreadCounted(rs: seq<Record>, i: nat)
    requires i <= |rs| && Counted(rs)
    ensures Counted(UnreadFrom(rs, i))
    decreases |rs| - i
  {
    if i < |rs| {
      var rest := UnreadFrom(rs, i + 1);
      UnreadCounted(rs, i + 1);
      if rs[i].readCount == 0 {
        assert UnreadFrom(rs, i) == [rs[i]] + rest;
      } else {
        assert UnreadFrom(rs, i) == rest;
      }
    }
  }

  lemma {:induction false} AfterCounted(rs: seq<Record>, op: Op)
    requires Counted(rs)
    ensures Counted(After(rs, op))
  {
    match op
    case Retire => UnreadCounted(rs, 0);
    case Ask(q) =>
      forall i {:trigger Delivered(rs, q)[i]} | 0 <= i < |rs|
        ensures Delivered(rs, q)[i].readCount == 0 <==> Delivered(rs, q)[i].consumers == []
      {
        assert rs[i].readCount == 0 <==> rs[i].consumers == [];
      }
    case _ =>
  }

  lemma {:induction false} RunCounted(rs: seq<Record>, ops: seq<Op>)
    requires Counted(rs)
    ensures Counted(AfterAll(rs, ops))
    decreases |ops|
  {
    if ops != [] {
      AfterCounted(rs, ops[0]);
      RunCounted(After(rs, ops[0]), ops[1..]);
    }
  }

  /** So in any queue that posts, receptions and retirements lead to, what one group receives is what
      the next retirement drops, and every other record that was unread is kept. */
  lemma {:induction false} RunRetiresRead(ops: seq<Op>, q: Query)
    ensures var rs := AfterAll([], ops); Unread(Delivered(rs, q)) == Unmatched(Unread(rs), q)
  {
    RunCounted([], ops);
    RetireKeepsUnread(AfterAll([], ops), q);
  }

  // ------------------------------------------------------------------ exactly once

  /** All that a group may ask for of one type of event. */
  function Whole(key: Key, kind: nat): Query {
    Query(kind, {Local, Signal, Broadcast}, key)
  }

  lemma {:induction false} AnyScope(s: Scope)
    ensures s in {Local, Signal, Broadcast}
  {
    match s
    case Local =>
    case Signal =>
    case Broadcast =>
  }

  /** The payloads of a type of event that a group has not been given yet. */
  function Waiting(rs: seq<Record>, key: Key, kind: nat): seq<Payload> {
    Deliverable(rs, Whole(key, kind))
  }

  function DueOne(r: Record, q: Query): seq<Payload> {
    if Due(r, q) then [r.payload] else []
  }

  function TakenOne(r: Record, q: Query): seq<Payload> {
    if Due(r, q) && r.readCount != 0 then [r.payload] else []
  }

  function KeptOne(r: Record, q: Query): seq<Payload> {
    if Due(r, q) && r.readCount == 0 then [r.payload] else []
  }

  /** Those among them that somebody else has been given, which a retirement takes away. */
  function TakenFrom(rs: seq<Record>, q: Query, i: nat): seq<Payload>
    requires i <= |rs|
    decreases |rs| - i
  {
    if i == |rs| then []
    else TakenOne(rs[i], q) + TakenFrom(rs, q, i + 1)
  }

  predicate Asks(op: Op, key: Key, kind: nat) {
    op.Ask? && op.q.key == key && op.q.kind == kind
  }

  /** The payloads that the operation adds to those of the type. */
  function Came(rs: seq<Record>, op: Op, kind: nat): seq<Payload> {
    if op.Post? && op.kind == kind && |rs| < QUEUE_CAPACITY then
      [if |op.payload| <= 128 then op.payload else op.payload[..128]]
    else []
  }

  /** Those that it gives to the group. */
  function Given(rs: seq<Record>, op: Op, key: Key, kind: nat): seq<Payload> {
    if Asks(op, key, kind) then Deliverable(rs, op.q) else []
  }

  /** Those that it takes away from the group. */
  function Taken(rs: seq<Record>, op: Op, key: Key, kind: nat): seq<Payload> {
    if op.Retire? then TakenFrom(rs, Whole(key, kind), 0) else []
  }

  /** The payloads of a type of event that the queue takes up over a run. */
  function Sent(rs: seq<Record>, ops: seq<Op>, kind: nat): seq<Payload>
    decreases |ops|
  {
    if ops == [] then []
    else Came(rs, ops[0], kind) + Sent(After(rs, ops[0]), ops[1..], kind)
  }

  /** The payloads of a type of event that the group is given over a run. */
  function Got(rs: seq<Record>, ops: seq<Op>, key: Key, kind: nat): seq<Payload>
    decreases |ops|
  {
    if ops == [] then []
    else Given(rs, ops[0], key, kind) + Got(After(rs, ops[0]), ops[1..], key, kind)
  }

  /** The payloads that retirements take away before the group has asked for them. */
  function Lost(rs: seq<Record>, ops: seq<Op>, key: Key, kind: nat): seq<Payload>
    decreases |ops|
  {
    if ops == [] then []
    else Taken(rs, ops[0], key, kind) + Lost(After(rs, ops[0]), ops[1..], key, kind)
  }

  /** Whenever the group asks, the records it is given have room to note it. */
  predicate Roomy(rs: seq<Record>, ops: seq<Op>, key: Key, kind: nat)
    decreases |ops|
  {
    ops != [] ==> (Asks(ops[0], key, kind) ==> !Crowded(rs, ops[0].q)) && Roomy(After(rs, ops[0]), ops[1..], key, kind)
  }

  lemma {:induction false} PostedWaits(rs: seq<Record>, r: Record, q: Query, i: nat)
    requires i <= |rs|
    ensures DueFrom(rs + [r], q, i) == DueFrom(rs, q, i) + if Due(r, q) then [r.payload] else []
    decreases |rs| - i
  {
    if i < |rs| {
      PostedWaits(rs, r, q, i + 1);
    } else {
      assert DueFrom(rs + [r], q, i + 1) == [];
    }
  }

  function Bag(s: seq<Payload>): multiset<Payload> {
    multiset(s)
  }

  /** A record is taken away by a retirement, or stays. */
  lemma {:induction false} RetiredWaits(rs: seq<Record>, q: Query, i: nat)
    requires i <= |rs|
    ensures Bag(DueFrom(rs, q, i)) == Bag(Deliverable(UnreadFrom(rs, i), q)) + Bag(TakenFrom(rs, q, i))
    decreases |rs| - i
  {
    if i < |rs| {
      hide Bag, Deliverable, Due, DueOne, KeptOne, TakenOne, DueFrom, TakenFrom, UnreadFrom;
      RetiredWaits(rs, q, i + 1);
      UnreadSplits(rs, q, i);
      OneParts(rs[i], q);
      PartsJoin(DueOne(rs[i], q), KeptOne(rs[i], q), TakenOne(rs[i], q),
                DueFrom(rs, q, i + 1), Deliverable(UnreadFrom(rs, i + 1), q), TakenFrom(rs, q, i + 1));
    }
  }

  lemma {:induction false} OneParts(r: Record, q: Query)
    ensures Bag(DueOne(r, q)) == Bag(KeptOne(r, q)) + Bag(TakenOne(r, q))
  {}

  lemma {:induction false} PartsJoin(a1: seq<Payload>, b1: seq<Payload>, c1: seq<Payload>,
                                     a2: seq<Payload>, b2: seq<Payload>, c2: seq<Payload>)
    requires Bag(a1) == Bag(b1) + Bag(c1) && Bag(a2) == Bag(b2) + Bag(c2)
    ensures Bag(a1 + a2) == Bag(b1 + b2) + Bag(c1 + c2)
  {}

  lemma {:induction false} UnreadSplits(rs: seq<Record>, q: Query, i: nat)
    requires i < |rs|
    ensures Deliverable(UnreadFrom(rs, i), q) ==
            KeptOne(rs[i], q) + Deliverable(UnreadFrom(rs, i + 1), q)
    ensures DueFrom(rs, q, i) == DueOne(rs[i], q) + DueFrom(rs, q, i + 1)
    ensures TakenFrom(rs, q, i) == TakenOne(rs[i], q) + TakenFrom(rs, q, i + 1)
  {
    hide Due;
    var rest, all := UnreadFrom(rs, i + 1), UnreadFrom(rs, i);
    if rs[i].readCount == 0 {
      assert all == [rs[i]] + rest;
      DueShift(rs[i], rest, q, 0);
      assert DueFrom(all, q, 0) == DueOne(rs[i], q) + DueFrom(all, q, 1);
    } else {
      assert all == [] + rest == rest;
      assert [] + Deliverable(rest, q) == Deliverable(rest, q);
    }
  }

  lemma {:induction false} DueShift(r: Record, rs: seq<Record>, q: Query, i: nat)
    requires i <= |rs|
    ensures DueFrom([r] + rs, q, i + 1) == DueFrom(rs, q, i)
    decreases |rs| - i
  {
    if i < |rs| {
      DueShift(r, rs, q, i + 1);
    }
  }

  /** Another group, or a group that asks for another type of event. */
  lemma {:induction false} OtherAsk(rs: seq<Record>, other: Query, q: Query, i: nat)
    requires (other.key != q.key || other.kind != q.kind) && i <= |rs|
    ensures DueFrom(Delivered(rs, other), q, i) == DueFrom(rs, q, i)
    decreases |rs| - i
  {
    if i < |rs| {
      OtherAsk(rs, other, q, i + 1);
      assert Due(Delivered(rs, other)[i], q) <==> Due(rs[i], q);
    }
  }

  /** No record from index i on that is due to q lacks room for another reader. */
  predicate RoomFrom(rs: seq<Record>, q: Query, i: nat)
    requires i <= |rs|
  {
    forall j :: i <= j < |rs| && Due(rs[j], q) ==> |rs[j].consumers| < MAX_CONSUMERS
  }

  /** What a group is given waits no more, except for the records without room to note it. */
  lemma {:induction false} OwnAsk(rs: seq<Record>, q: Query, i: nat)
    requires i <= |rs|
    ensures Tallies(DueFrom(rs, Whole(q.key, q.kind), i), DueFrom(rs, q, i),
            DueFrom(Delivered(rs, q), Whole(q.key, q.kind), i),
                    RoomFrom(rs, q, i))
    decreases |rs| - i
  {
    if i < |rs| {
      var all, now := Whole(q.key, q.kind), Delivered(rs, q);
      assert now[i] == if Due(rs[i], q) then Consumed(rs[i], q.key) else rs[i];
      hide Tallies, Due, DueOne, DueFrom, Whole, RoomFrom, Delivered, Consumed;
      OwnAsk(rs, q, i + 1);
      OwnAskOne(rs[i], q);
      RoomSplits(rs, q, i);
      DueSplits(rs, all, i);
      DueSplits(rs, q, i);
      DueSplits(now, all, i);
      TalliesJoin(DueOne(rs[i], all), DueOne(rs[i], q), DueOne(now[i], all),
                  Due(rs[i], q) ==> |rs[i].consumers| < MAX_CONSUMERS,
                  DueFrom(rs, all, i + 1), DueFrom(rs, q, i + 1), DueFrom(now, all, i + 1), RoomFrom(rs, q, i + 1));
    } else {
      assert DueFrom(rs, q, i) == [];
    }
  }

  lemma {:induction false} DueSplits(rs: seq<Record>, q: Query, i: nat)
    requires i < |rs|
    ensures DueFrom(rs, q, i) == DueOne(rs[i], q) + DueFrom(rs, q, i + 1)
  {}

  /** What waited is what was got and what waits now, if there was room, and less otherwise. */
  ghost predicate Tallies(before: seq<Payload>, got: seq<Payload>, after: seq<Payload>, room: bool) {
    && multiset(before) <= multiset(got) + multiset(after)
    && (room <==> |before| == |got| + |after|)
  }

  lemma {:induction false} TalliesJoin(b1: seq<Payload>, g1: seq<Payload>, a1: seq<Payload>, r1: bool,
                                       b2: seq<Payload>, g2: seq<Payload>, a2: seq<Payload>, r2: bool)
    requires Tallies(b1, g1, a1, r1) && Tallies(b2, g2, a2, r2)
    ensures Tallies(b1 + b2, g1 + g2, a1 + a2, r1 && r2)
  {
    assert |multiset(b1)| <= |multiset(g1) + multiset(a1)| by { Smaller(multiset(b1), multiset(g1) + multiset(a1)); }
    assert |multiset(b2)| <= |multiset(g2) + multiset(a2)| by { Smaller(multiset(b2), multiset(g2) + multiset(a2)); }
  }

  lemma {:induction false} Smaller(a: multiset<Payload>, b: multiset<Payload>)
    requires a <= b
    ensures |a| <= |b| && (|a| == |b| ==> a == b)
  {
    assert b == a + (b - a);
  }

  lemma {:induction false} RoomSplits(rs: seq<Record>, q: Query, i: nat)
    requires i < |rs|
    ensures RoomFrom(rs, q, i) <==> (Due(rs[i], q) ==> |rs[i].consumers| < MAX_CONSUMERS) && RoomFrom(rs, q, i + 1)
  {}

  lemma {:induction false} OwnAskOne(r: Record, q: Query)
    ensures var all, now := Whole(q.key, q.kind), if Due(r, q) then Consumed(r, q.key) else r;
            Tallies(DueOne(r, all), DueOne(r, q), DueOne(now, all), Due(r, q) ==> |r.consumers| < MAX_CONSUMERS)
  {
    var all, none, one: seq<Payload> := Whole(q.key, q.kind), [], [r.payload];
    if Due(r, q) {
      AnyScope(r.scope);
      assert Due(r, all);
      var now := Consumed(r, q.key);
      if |r.consumers| < MAX_CONSUMERS {
        assert now.consumers[|r.consumers|] == q.key;
        assert !Due(now, all);
        assert Tallies(one, one, none, true);
      } else {
        assert now.consumers == r.consumers && Due(now, all);
        assert Tallies(one, one, one, false);
      }
    } else {
      assert Tallies(one, none, one, true) && Tallies(none, none, none, true);
    }
  }

  /** The books of a run: what was there and what came, against what was given, what is there and
      what was taken away. */
  ghost predicate Exact(there: seq<Payload>, came: seq<Payload>, got: seq<Payload>, left: seq<Payload>,
                        gone: seq<Payload>, room: bool) {
    && multiset(there) + multiset(came) <= multiset(got) + multiset(left) + multiset(gone)
    && (room <==> |there| + |came| == |got| + |left| + |gone|)
  }

  lemma {:induction false} ExactJoin(there: seq<Payload>, came1: seq<Payload>, got1: seq<Payload>,
                                     between: seq<Payload>, gone1: seq<Payload>,
                                     room1: bool, came2: seq<Payload>, got2: seq<Payload>, left: seq<Payload>,
                                     gone2: seq<Payload>, room2: bool)
    requires Exact(there, came1, got1, between, gone1, room1) && Exact(between, came2, got2, left, gone2, room2)
    ensures Exact(there, came1 + came2, got1 + got2, left, gone1 + gone2, room1 && room2)
  {
    var ins, outs := multiset(there) + multiset(came1), multiset(got1) + multiset(between) + multiset(gone1);
    var ins', outs' := multiset(between) + multiset(came2), multiset(got2) + multiset(left) + multiset(gone2);
    Smaller(ins, outs);
    Smaller(ins', outs');
    var all, rest := multiset(there) + multiset(came1 + came2),
        multiset(got1 + got2) + multiset(left) + multiset(gone1 + gone2);
    assert multiset(came1 + came2) == multiset(came1) + multiset(came2);
    assert multiset(got1 + got2) == multiset(got1) + multiset(got2);
    assert multiset(gone1 + gone2) == multiset(gone1) + multiset(gone2);
    forall x ensures all[x] <= rest[x] {
      assert ins[x] <= outs[x] && ins'[x] <= outs'[x];
    }
  }

  lemma {:induction false} OneExact(rs: seq<Record>, op: Op, key: Key, kind: nat)
    ensures Exact(Waiting(rs, key, kind), Came(rs, op, kind), Given(rs, op, key, kind),
            Waiting(After(rs, op), key, kind),
                  Taken(rs, op, key, kind), Asks(op, key, kind) ==> !Crowded(rs, op.q))
  {
    hide DueFrom, TakenFrom, UnreadFrom;
    var all := Whole(key, kind);
    match op
    case Post(k, scope, source, payload) => PostedExact(rs, op, key, kind);
    case Retire =>
      RetiredWaits(rs, all, 0);
      SameSize(Waiting(rs, key, kind), Waiting(Unread(rs), key, kind), TakenFrom(rs, all, 0));
    case Ask(q) =>
      if Asks(op, key, kind) {
        OwnAsk(rs, q, 0);
        assert RoomFrom(rs, q, 0) <==> !Crowded(rs, q);
      } else {
        OtherAsk(rs, q, all, 0);
      }
  }

  lemma {:induction false} SameSize(a: seq<Payload>, b: seq<Payload>, c: seq<Payload>)
    requires multiset(a) == multiset(b) + multiset(c)
    ensures |a| == |b| + |c|
  {
    assert |multiset(a)| == |multiset(b)| + |multiset(c)|;
  }

  lemma {:induction false} PostedExact(rs: seq<Record>, op: Op, key: Key, kind: nat)
    requires op.Post?
    ensures Exact(Waiting(rs, key, kind), Came(rs, op, kind), [], Waiting(After(rs, op), key, kind), [], true)
  {
    hide DueFrom;
    var r := Record(op.kind, op.scope, op.source, Truncated(op.payload), 0, []);
    PostedWaits(rs, r, Whole(key, kind), 0);
    AnyScope(op.scope);
    assert Due(r, Whole(key, kind)) <==> op.kind == kind;
    if |rs| < QUEUE_CAPACITY {
      assert Waiting(After(rs, op), key, kind) == Waiting(rs, key, kind) + Came(rs, op, kind);
    }
  }

  lemma {:induction false} RunExact(rs: seq<Record>, ops: seq<Op>, key: Key, kind: nat)
    ensures Exact(Waiting(rs, key, kind), Sent(rs, ops, kind), Got(rs, ops, key, kind),
            Waiting(AfterAll(rs, ops), key, kind),
                  Lost(rs, ops, key, kind), Roomy(rs, ops, key, kind))
    decreases |ops|
  {
    if ops != [] {
      hide Exact, Waiting, Asks, Crowded, Came, Given, Taken;
      var op, next := ops[0], After(rs, ops[0]);
      OneExact(rs, op, key, kind);
      RunExact(next, ops[1..], key, kind);
      ExactJoin(Waiting(rs, key, kind), Came(rs, op, kind), Given(rs, op, key, kind), Waiting(next, key, kind),
                Taken(rs, op, key, kind), Asks(op, key, kind) ==> !Crowded(rs, op.q),
                Sent(next, ops[1..], kind), Got(next, ops[1..], key, kind), Waiting(AfterAll(rs, ops), key, kind),
                Lost(next, ops[1..], key, kind), Roomy(next, ops[1..], key, kind));
    }
  }

  /** Over any run, whatever any number of groups ask for in between: every event of a type that the
      queue takes up is given to a group once, still waits for it, or was taken away by a retirement
      after others had read it, and exactly one of these, if and only if there was room to note the
      group whenever it asked.  Without room events are given more than once, and never less. */
  lemma {:induction false} ExactlyOnceIff(ops: seq<Op>, key: Key, kind: nat)
    ensures var sent, accounted := multiset(Sent([], ops, kind)),
                multiset(Got([], ops, key, kind)) + multiset(Waiting(AfterAll([], ops), key, kind))
                    + multiset(Lost([], ops, key, kind));
            sent <= accounted && (sent == accounted <==> Roomy([], ops, key, kind))
  {
    RunExact([], ops, key, kind);
    Smaller(multiset(Sent([], ops, kind)), multiset(Got([], ops, key, kind))
        + multiset(Waiting(AfterAll([], ops), key, kind)) + multiset(Lost([], ops, key, kind)));
    assert multiset(Waiting([], key, kind)) == multiset{};
  }
}

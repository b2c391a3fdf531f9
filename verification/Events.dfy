/** The event queue: delivery to each listening group, and compaction at the end of a frame. */
module Events {
  import opened Basics
  import State
  import Snapshots

  type Payload = seq<int>

  const MAX_PAYLOAD: nat := 128
  const QUEUE_CAPACITY: nat := 64
  const MAX_LISTENERS: nat := 64
  const MAX_CONSUMERS: nat := 8

  datatype Scope = Local | Signal | Broadcast

  datatype Record = Record(
    kind: nat,             // hash of the event type
    scope: Scope,
    source: nat,           // emitting group, or 0
    payload: Payload,
    readCount: nat,
    consumers: seq<Key>    // groups that have read the record
  )

  datatype Listener = Listener(key: Key, kind: nat, scopes: set<Scope>)

  /** What a group asks for. */
  datatype Query = Query(kind: nat, scopes: set<Scope>, key: Key)

  predicate Matches(r: Record, q: Query) {
    r.kind == q.kind && r.scope in q.scopes
  }

  /** The record is due: it matches and the group has not read it yet. */
  predicate Due(r: Record, q: Query) {
    Matches(r, q) && q.key !in r.consumers
  }

  /** Record i has the type and one of the scopes asked for, and does not name the group as a reader. */
  predicate Wanted(rs: seq<Record>, q: Query, i: nat) {
    i < |rs| && rs[i].kind == q.kind && rs[i].scope in q.scopes && q.key !in rs[i].consumers
  }

  function Consumed(r: Record, key: Key): Record {
    r.(readCount := r.readCount + 1, consumers :=
        if |r.consumers| < MAX_CONSUMERS then r.consumers + [key] else r.consumers)
  }

  /** Index of the first due record from index i on, or the number of records. */
  function FirstDue(rs: seq<Record>, q: Query, i: nat): (r: nat)
    requires i <= |rs|
    ensures i <= r <= |rs|
    ensures forall j :: i <= j < r ==> !Due(rs[j], q)
    ensures r < |rs| ==> Due(rs[r], q)
    decreases |rs| - i
  {
    if i == |rs| || Due(rs[i], q) then i else FirstDue(rs, q, i + 1)
  }

  /** The payloads due to q from record i on, in queue order. */
  function DueFrom(rs: seq<Record>, q: Query, i: nat): seq<Payload>
    requires i <= |rs|
    decreases |rs| - i
  {
    if i == |rs| then [] else (if Due(rs[i], q) then [rs[i].payload] else []) + DueFrom(rs, q, i + 1)
  }

  function Deliverable(rs: seq<Record>, q: Query): seq<Payload> {
    DueFrom(rs, q, 0)
  }

  /** The queue once everything due to q has been read. */
  function Delivered(rs: seq<Record>, q: Query): (r: seq<Record>)
    ensures |r| == |rs|
  {
    seq(|rs|, i requires 0 <= i < |rs| => if Due(rs[i], q) then Consumed(rs[i], q.key) else rs[i])
  }

  /** The records from index i on that nobody has read, in order. */
  function UnreadFrom(rs: seq<Record>, i: nat): seq<Record>
    requires i <= |rs|
    decreases |rs| - i
  {
    if i == |rs| then [] else (if rs[i].readCount == 0 then [rs[i]] else []) + UnreadFrom(rs, i + 1)
  }

  function Unread(rs: seq<Record>): seq<Record> {
    UnreadFrom(rs, 0)
  }

  function Truncated(p: Payload): Payload {
    if |p| > MAX_PAYLOAD then p[..MAX_PAYLOAD] else p
  }

  /** The record has the payload that was posted: all of it, or its first 128 elements. */
  predicate Stores(r: Record, p: Payload) {
    && (|p| <= 128 ==> r.payload == p)
    && (|p| > 128 ==> |r.payload| == 128 && r.payload == p[..128])
  }

  /** The groups among the listeners from i on that an event wakes, in order of registration. */
  function Listening(ls: seq<Listener>, kind: nat, scope: Scope, i: nat): seq<Key>
    requires i <= |ls|
    decreases |ls| - i
  {
    if i == |ls| then []
    else (if ls[i].kind == kind && scope in ls[i].scopes then [ls[i].key] else []) + Listening(ls, kind, scope, i + 1)
  }

  /** The keys scheduled once an event has woken its listeners from i on. */
  function Woken(ls: seq<Listener>, kind: nat, scope: Scope, i: nat, pending: seq<Key>): seq<Key>
    requires i <= |ls|
    decreases |ls| - i
  {
    if i == |ls| then pending
    else Woken(ls, kind, scope, i + 1, if ls[i].kind == kind && scope in ls[i].scopes
        then State.EnqueueOne(pending, ls[i].key) else pending)
  }

  function Rooted(pending: seq<Key>, root: Option<Key>): seq<Key> {
    if root.Some? then State.EnqueueOne(pending, root.value) else pending
  }

  /** The first entry of a group for an event type takes up the new scopes; a new entry is
      added while there is room. */
  function Registered(ls: seq<Listener>, q: Query, i: nat): seq<Listener>
    requires i <= |ls|
    decreases |ls| - i
  {
    if i == |ls| then if |ls| < MAX_LISTENERS then ls + [Listener(q.key, q.kind, q.scopes)] else ls
    else if ls[i].key == q.key && ls[i].kind == q.kind then ls[i := ls[i].(scopes := ls[i].scopes + q.scopes)]
    else Registered(ls, q, i + 1)
  }

  class EventQueue {
    var records: seq<Record>
    var pollCursor: nat
    var listeners: seq<Listener>

    constructor ()
      ensures records == [] && pollCursor == 0 && listeners == []
    {
      records, pollCursor, listeners := [], 0, [];
    }

    /** Queues a record and schedules the groups that listen for it; a full queue refuses it. */
    method Post(kind: nat, scope: Scope, source: nat, payload: Payload, pending: seq<Key>)
      returns (ok: bool, scheduled: seq<Key>)
      modifies this`records
      ensures ok == (|old(records)| < QUEUE_CAPACITY)
      ensures records == if ok then old(records) + [Record(kind, scope, source, Truncated(payload), 0, [])]
              else old(records)
      ensures ok ==> |records| == |old(records)| + 1 && Stores(records[|old(records)|], payload)
      ensures scheduled == if ok then Woken(listeners, kind, scope, 0, pending) else pending
    {
      if |records| >= QUEUE_CAPACITY {
        return false, pending;
      }
      records := records + [Record(kind, scope, source, Truncated(payload), 0, [])];
      scheduled := Wake(kind, scope, pending);
      ok := true;
    }

    /** Schedules the groups that listen for an event. */
    method Wake(kind: nat, scope: Scope, pending: seq<Key>) returns (scheduled: seq<Key>)
      ensures scheduled == Woken(listeners, kind, scope, 0, pending)
    {
      scheduled := pending;
      var i := 0;
      while i < |listeners|
        invariant i <= |listeners| && Woken(listeners, kind, scope, i, scheduled) ==
                  Woken(listeners, kind, scope, 0, pending)
      {
        if listeners[i].kind == kind && scope in listeners[i].scopes {
          scheduled := State.EnqueueOne(scheduled, listeners[i].key);
        }
        i := i + 1;
      }
    }

    /** A local event of this session; pending are the keys scheduled in it. */
    method Emit(kind: nat, source: nat, payload: Payload, pending: seq<Key>) returns (ok: bool, scheduled: seq<Key>)
      modifies this`records
      ensures ok == (|old(records)| < QUEUE_CAPACITY)
      ensures records == if ok then old(records) + [Record(kind, Local, source, Truncated(payload), 0, [])]
              else old(records)
      ensures ok ==> |records| == |old(records)| + 1 && Stores(records[|old(records)|], payload)
      ensures scheduled == if ok then Woken(listeners, kind, Local, 0, pending) else pending
    {
      ok, scheduled := Post(kind, Local, source, payload, pending);
    }

    /** A signal from another session; pending are the keys scheduled for the next frame of this
        one, and root is the key of its composition, which is scheduled too. */
    method Signal(kind: nat, payload: Payload, pending: seq<Key>, root: Option<Key>)
      returns (ok: bool, scheduled: seq<Key>)
      modifies this`records
      ensures ok == (|old(records)| < QUEUE_CAPACITY)
      ensures records == if ok then old(records) + [Record(kind, Scope.Signal, 0, Truncated(payload), 0, [])]
              else old(records)
      ensures ok ==> |records| == |old(records)| + 1 && Stores(records[|old(records)|], payload)
      ensures scheduled == if ok then Rooted(Woken(listeners, kind, Scope.Signal, 0, pending), root) else pending
      ensures ok && root.Some? && |Woken(listeners, kind, Scope.Signal, 0, pending)| < State.MAX_QUEUE ==>
                root.value in scheduled
    {
      ok, scheduled := Post(kind, Scope.Signal, 0, payload, pending);
      if ok && root.Some? {
        scheduled := State.EnqueueOne(scheduled, root.value);
      }
    }

    /** Notes that the group listens; its scopes accumulate. */
    method Register(q: Query)
      modifies this`listeners
      ensures listeners == Registered(old(listeners), q, 0)
    {
      var i := 0;
      while i < |listeners|
        invariant i <= |listeners| && listeners == old(listeners)
                  && Registered(listeners, q, 0) == Registered(listeners, q, i)
      {
        if listeners[i].key == q.key && listeners[i].kind == q.kind {
          listeners := listeners[i := listeners[i].(scopes := listeners[i].scopes + q.scopes)];
          return;
        }
        i := i + 1;
      }
      if |listeners| < MAX_LISTENERS {
        listeners := listeners + [Listener(q.key, q.kind, q.scopes)];
      }
    }

    /** Reads the first due record from index start on. */
    method ReadFrom(q: Query, start: nat) returns (v: Option<Payload>)
      modifies this`records, this`pollCursor
      ensures v.Some? ==>
                && start <= pollCursor && Wanted(old(records), q, pollCursor)
                && v.value == old(records)[pollCursor].payload && |records| == |old(records)|
                && records[pollCursor].readCount == old(records)[pollCursor].readCount + 1
      ensures forall j :: start <= j < (if v.Some? then pollCursor else |old(records)|) ==> !Wanted(old(records), q, j)
      ensures var i := if start <= |old(records)| then FirstDue(old(records), q, start) else |old(records)|;
              if i < |old(records)| then
                && v == Some(old(records)[i].payload) && pollCursor == i
                && records == old(records)[i := Consumed(old(records)[i], q.key)]
              else v == None && records == old(records) && pollCursor == old(pollCursor)
    {
      var i := start;
      while i < |records|
        invariant records == old(records) && pollCursor == old(pollCursor) && start <= i
        invariant start <= |records| ==> i <= |records| && FirstDue(records, q, start) == FirstDue(records, q, i)
      {
        if records[i].kind == q.kind && records[i].scope in q.scopes {
          var already, c := false, 0;
          while c < |records[i].consumers|
            invariant c <= |records[i].consumers| && !already && q.key !in records[i].consumers[..c]
          {
            if records[i].consumers[c] == q.key {
              already := true;
              break;
            }
            c := c + 1;
          }
          if !already {
            pollCursor, records := i, records[i := Consumed(records[i], q.key)];
            return Some(records[i].payload);
          }
        }
        i := i + 1;
      }
      return None;
    }

    /** The first due record; the group is registered as a listener. */
    method Poll(q: Query) returns (v: Option<Payload>)
      modifies this
      ensures v.Some? ==> Wanted(old(records), q, pollCursor) && v.value == old(records)[pollCursor].payload
      ensures forall j :: 0 <= j < (if v.Some? then pollCursor else |old(records)|) ==> !Wanted(old(records), q, j)
      ensures listeners == Registered(old(listeners), q, 0)
      ensures var i := FirstDue(old(records), q, 0);
              if i < |old(records)| then
                && v == Some(old(records)[i].payload) && pollCursor == i
                && records == old(records)[i := Consumed(old(records)[i], q.key)]
              else v == None && records == old(records)
    {
      Register(q);
      v := ReadFrom(q, 0);
    }

    /** The next due record after the one read last. */
    method Next(q: Query) returns (v: Option<Payload>)
      modifies this`records, this`pollCursor
      ensures v.Some? ==>
                old(pollCursor) < pollCursor && Wanted(old(records), q, pollCursor)
                    && v.value == old(records)[pollCursor].payload
      ensures forall j :: old(pollCursor) < j < (if v.Some? then pollCursor else |old(records)|) ==>
              !Wanted(old(records), q, j)
      ensures var start := old(pollCursor) + 1;
              var i := if start <= |old(records)| then FirstDue(old(records), q, start) else |old(records)|;
              if i < |old(records)| then
                && v == Some(old(records)[i].payload) && pollCursor == i
                && records == old(records)[i := Consumed(old(records)[i], q.key)]
              else v == None && records == old(records) && pollCursor == old(pollCursor)
    {
      v := ReadFrom(q, pollCursor + 1);
    }

    /** The loop of a listening group: poll once, then fetch until nothing is left. */
    method Receive(q: Query) returns (got: seq<Payload>)
      modifies this
      ensures got == Deliverable(old(records), q)
      ensures records == Delivered(old(records), q)
      ensures listeners == Registered(old(listeners), q, 0)
    {
      ghost var rs := records;
      got := [];
      var v := Poll(q);
      ghost var at: nat := Advance(rs, q, 0, rs, v, pollCursor, records);
      while v.Some?
        invariant Reading(rs, q, at, v, records) && (v.Some? ==> pollCursor == at)
        invariant got + DueFrom(rs, q, at) == Deliverable(rs, q)
        invariant listeners == Registered(old(listeners), q, 0)
        decreases |rs| - at
      {
        ghost var now, from := records, at;
        got := got + [v.value];
        v := Next(q);
        at := Advance(rs, q, from + 1, now, v, pollCursor, records);
        Received(rs, q, from, at, got);
      }
      AllRead(rs, q, at, got, records);
    }

    /** Drops the records that somebody has read, compacting the others in place. */
    method RetireConsumed()
      modifies this`records, this`pollCursor
      ensures records == Unread(old(records)) && pollCursor == 0
    {
      hide UnreadFrom;
      ghost var rs, kept: seq<Record> := records, [];
      var writeIdx, i := 0, 0;
      while i < |records|
        invariant writeIdx <= i <= |records| == |rs|
        invariant forall j {:trigger records[j]} :: i <= j < |rs| ==> records[j] == rs[j]
        invariant records[..writeIdx] == kept && kept + UnreadFrom(rs, i) == Unread(rs)
      {
        UnreadNext(rs, i, kept);
        if records[i].readCount == 0 {
          records := records[writeIdx := records[i]];
          assert records[..writeIdx + 1] == kept + [rs[i]];
          kept := kept + [rs[i]];
          writeIdx := writeIdx + 1;
        }
        i := i + 1;
      }
      UnreadDone(rs, kept);
      records := records[..writeIdx];
      pollCursor := 0;
    }
  }

  /** The next record is kept or dropped. */
  lemma {:induction false} UnreadNext(rs: seq<Record>, i: nat, kept: seq<Record>)
    requires i < |rs| && kept + UnreadFrom(rs, i) == Unread(rs)
    ensures (if rs[i].readCount == 0 then kept + [rs[i]] else kept) + UnreadFrom(rs, i + 1) == Unread(rs)
  {
    var rest := UnreadFrom(rs, i + 1);
    if rs[i].readCount == 0 {
      assert kept + ([rs[i]] + rest) == (kept + [rs[i]]) + rest;
    } else {
      assert [] + rest == rest;
    }
  }

  lemma {:induction false} UnreadDone(rs: seq<Record>, kept: seq<Record>)
    ensures kept + UnreadFrom(rs, |rs|) == kept
  {}

  lemma {:induction false} SkipAhead(rs: seq<Record>, q: Query, i: nat, at: nat)
    requires i <= at <= |rs| && forall j :: i <= j < at ==> !Due(rs[j], q)
    ensures DueFrom(rs, q, i) == DueFrom(rs, q, at)
    decreases at - i
  {
    if i < at {
      SkipAhead(rs, q, i + 1, at);
    }
  }

  /** now is rs with the due records before index at read. */
  ghost predicate ReadUpTo(rs: seq<Record>, q: Query, at: nat, now: seq<Record>) {
    && |now| == |rs|
    && forall j {:trigger now[j]} :: 0 <= j < |rs| ==>
          now[j] == if j < at && Due(rs[j], q) then Consumed(rs[j], q.key) else rs[j]
  }

  /** The next due record is the one at index at, and all before it have been read. */
  ghost predicate Reading(rs: seq<Record>, q: Query, at: nat, v: Option<Payload>, now: seq<Record>) {
    && at <= |rs| && (v.Some? <==> at < |rs|)
    && (v.Some? ==> Due(rs[at], q) && v.value == rs[at].payload)
    && ReadUpTo(rs, q, if v.Some? then at + 1 else at, now)
  }

  /** Nothing more is due. */
  lemma {:induction false} AllRead(rs: seq<Record>, q: Query, at: nat, got: seq<Payload>, now: seq<Record>)
    requires Reading(rs, q, at, None, now) && got + DueFrom(rs, q, at) == Deliverable(rs, q)
    ensures now == Delivered(rs, q) && got == Deliverable(rs, q)
  {
    assert got + [] == got;
  }

  /** The payload read last moves from what is due to what has been received. */
  lemma {:induction false} Received(rs: seq<Record>, q: Query, from: nat, at: nat, got: seq<Payload>)
    requires from < at <= |rs| && Due(rs[from], q) && DueFrom(rs, q, from + 1) == DueFrom(rs, q, at)
    requires got != [] && got[|got| - 1] == rs[from].payload
             && got[..|got| - 1] + DueFrom(rs, q, from) == Deliverable(rs, q)
    ensures got + DueFrom(rs, q, at) == Deliverable(rs, q)
  {
    assert got + DueFrom(rs, q, at) == got[..|got| - 1] + ([rs[from].payload] + DueFrom(rs, q, from + 1));
  }

  /** What fetching from index start on returns and leaves. */
  ghost predicate Fetched(rs: seq<Record>, q: Query, start: nat, v: Option<Payload>, cursor: nat, after: seq<Record>)
    requires start <= |rs|
  {
    var i := FirstDue(rs, q, start);
    if i < |rs| then v == Some(rs[i].payload) && cursor == i && after == rs[i := Consumed(rs[i], q.key)]
    else v == None && after == rs
  }

  /** One step of the receiving loop. */
  lemma {:induction false} Advance(rs: seq<Record>, q: Query, start: nat, now: seq<Record>, v: Option<Payload>,
                                   cursor: nat, after: seq<Record>)
    returns (at: nat)
    requires start <= |rs| && ReadUpTo(rs, q, start, now) && Fetched(now, q, start, v, cursor, after)
    ensures start <= at && Reading(rs, q, at, v, after) && (v.Some? ==> cursor == at)
    ensures DueFrom(rs, q, start) == DueFrom(rs, q, at)
  {
    SameDue(rs, now, q, start);
    at := FirstDue(rs, q, start);
    SkipAhead(rs, q, start, at);
  }

  lemma {:induction false} SameDue(a: seq<Record>, b: seq<Record>, q: Query, i: nat)
    requires |a| == |b| && i <= |a| && forall j {:trigger b[j]} :: i <= j < |a| ==> b[j] == a[j]
    ensures FirstDue(a, q, i) == FirstDue(b, q, i)
    decreases |a| - i
  {
    if i < |a| && !Due(a[i], q) {
      SameDue(a, b, q, i + 1);
    }
  }

  // ------------------------------------------------------------------ exactly once

  /** Some record due to q has no room for another reader. */
  predicate Crowded(rs: seq<Record>, q: Query) {
    exists i :: 0 <= i < |rs| && Due(rs[i], q) && |rs[i].consumers| >= MAX_CONSUMERS
  }

  lemma {:induction false} NothingDue(rs: seq<Record>, q: Query, i: nat)
    requires i <= |rs|
    ensures DueFrom(rs, q, i) == [] <==> forall j :: i <= j < |rs| ==> !Due(rs[j], q)
    decreases |rs| - i
  {
    if i < |rs| {
      NothingDue(rs, q, i + 1);
    }
  }

  /** A group that asks again gets nothing, if and only if every record it was given had room
      to note it as a reader. */
  lemma {:induction false} RepeatIsEmptyIff(rs: seq<Record>, q: Query)
    ensures Deliverable(Delivered(rs, q), q) == [] <==> !Crowded(rs, q)
  {
    var after := Delivered(rs, q);
    NothingDue(after, q, 0);
    if Crowded(rs, q) {
      var i :| 0 <= i < |rs| && Due(rs[i], q) && |rs[i].consumers| >= MAX_CONSUMERS;
      assert Due(after[i], q);
    } else {
      forall i | 0 <= i < |after| ensures !Due(after[i], q) {
        if Due(rs[i], q) {
          assert after[i].consumers[|rs[i].consumers|] == q.key;
        }
      }
    }
  }

  /** With eight readers noted, the ninth group is given the record over and over. */
  lemma {:induction false} NinthReaderRepeats()
    ensures var rs := [Record(1, Local, 0, [7], 8, [1, 2, 3, 4, 5, 6, 7, 8])];
            var q := Query(1, {Local}, 9);
            Deliverable(rs, q) == [[7]] && Deliverable(Delivered(rs, q), q) == [[7]]
  {
    var rs := [Record(1, Local, 0, [7], 8, [1, 2, 3, 4, 5, 6, 7, 8])];
    var q := Query(1, {Local}, 9);
    assert Due(Delivered(rs, q)[0], q);
    assert DueFrom(rs, q, 1) == [] && DueFrom(Delivered(rs, q), q, 1) == [];
  }

  /** What one group receives takes nothing away from another. */
  lemma {:induction false} OthersUnaffected(rs: seq<Record>, q: Query, other: Query, i: nat)
    requires other.key != q.key && i <= |rs|
    ensures DueFrom(Delivered(rs, q), other, i) == DueFrom(rs, other, i)
    decreases |rs| - i
  {
    if i < |rs| {
      OthersUnaffected(rs, q, other, i + 1);
      assert Due(Delivered(rs, q)[i], other) <==> Due(rs[i], other);
    }
  }

  lemma {:induction false} ListeningHas(ls: seq<Listener>, kind: nat, scope: Scope, i: nat, j: nat)
    requires i <= j < |ls| && ls[j].kind == kind && scope in ls[j].scopes
    ensures ls[j].key in Listening(ls, kind, scope, i)
    decreases j - i
  {
    if i < j {
      ListeningHas(ls, kind, scope, i + 1, j);
    }
  }

  lemma {:induction false} RegisteredHas(ls: seq<Listener>, q: Query, i: nat) returns (j: nat)
    requires i <= |ls|
    requires |ls| < MAX_LISTENERS || exists k :: i <= k < |ls| && ls[k].key == q.key && ls[k].kind == q.kind
    ensures var r := Registered(ls, q, i);
            j < |r| && r[j].key == q.key && r[j].kind == q.kind && q.scopes <= r[j].scopes
    decreases |ls| - i
  {
    if i == |ls| || (ls[i].key == q.key && ls[i].kind == q.kind) {
      j := i;
    } else {
      j := RegisteredHas(ls, q, i + 1);
    }
  }

  /** Some entry of the group for the event type is among the listeners. */
  predicate HasEntry(ls: seq<Listener>, q: Query) {
    exists k :: 0 <= k < |ls| && ls[k].key == q.key && ls[k].kind == q.kind
  }

  lemma {:induction false} ListeningFrom(ls: seq<Listener>, kind: nat, scope: Scope, i: nat, key: Key)
    requires i <= |ls| && key in Listening(ls, kind, scope, i)
    ensures exists k :: i <= k < |ls| && ls[k].key == key && ls[k].kind == kind
    decreases |ls| - i
  {
    if !(ls[i].kind == kind && scope in ls[i].scopes && ls[i].key == key) {
      ListeningFrom(ls, kind, scope, i + 1, key);
    }
  }

  lemma {:induction false} NotRegistered(ls: seq<Listener>, q: Query, i: nat)
    requires i <= |ls| && |ls| >= MAX_LISTENERS && !HasEntry(ls, q)
    ensures Registered(ls, q, i) == ls
    decreases |ls| - i
  {
    if i < |ls| {
      NotRegistered(ls, q, i + 1);
    }
  }

  /** A group that has asked for an event is among those woken by it if and only if the listener
      table had room for it, or an entry of the group for that event already. */
  lemma {:induction false} AskersAreWoken(ls: seq<Listener>, q: Query, scope: Scope)
    requires scope in q.scopes
    ensures q.key in Listening(Registered(ls, q, 0), q.kind, scope, 0) <==> |ls| < MAX_LISTENERS || HasEntry(ls, q)
  {
    if |ls| < MAX_LISTENERS || HasEntry(ls, q) {
      var j := RegisteredHas(ls, q, 0);
      ListeningHas(Registered(ls, q, 0), q.kind, scope, 0, j);
    } else {
      NotRegistered(ls, q, 0);
      if q.key in Listening(ls, q.kind, scope, 0) { ListeningFrom(ls, q.kind, scope, 0, q.key); }
    }
  }

  lemma {:induction false} EnqueueFirst(queue: seq<Key>, key: Key, keys: seq<Key>)
    ensures State.Enqueue(queue, [key] + keys) == State.Enqueue(State.EnqueueOne(queue, key), keys)
    decreases |keys|
  {
    var all := [key] + keys;
    if keys == [] {
      assert all[..0] == [] && all == [key];
    } else {
      assert all[..|keys|] == [key] + keys[..|keys| - 1] && all[|keys|] == keys[|keys| - 1];
      EnqueueFirst(queue, key, keys[..|keys| - 1]);
    }
  }

  predicate Hears(l: Listener, kind: nat, scope: Scope) {
    l.kind == kind && scope in l.scopes
  }

  /** The next listener is woken or not. */
  lemma {:induction false} WokenOne(ls: seq<Listener>, kind: nat, scope: Scope, i: nat, pending: seq<Key>)
    requires i < |ls|
    ensures Woken(ls, kind, scope, i, pending) ==
            Woken(ls, kind, scope, i + 1,
                  if Hears(ls[i], kind, scope) then State.EnqueueOne(pending, ls[i].key) else pending)
    ensures Listening(ls, kind, scope, i) ==
            if Hears(ls[i], kind, scope) then [ls[i].key] + Listening(ls, kind, scope, i + 1)
            else Listening(ls, kind, scope, i + 1)
  {
    hide State.EnqueueOne;
    assert [] + Listening(ls, kind, scope, i + 1) == Listening(ls, kind, scope, i + 1);
  }

  lemma {:induction false} WokenEnqueues(ls: seq<Listener>, kind: nat, scope: Scope, i: nat, pending: seq<Key>)
    requires i <= |ls|
    ensures Woken(ls, kind, scope, i, pending) == State.Enqueue(pending, Listening(ls, kind, scope, i))
    decreases |ls| - i
  {
    if i == |ls| {
      EnqueueNone(pending);
    } else {
      hide State.Enqueue, State.EnqueueOne, Woken, Listening, Hears;
      WokenOne(ls, kind, scope, i, pending);
      if Hears(ls[i], kind, scope) {
        WokenEnqueues(ls, kind, scope, i + 1, State.EnqueueOne(pending, ls[i].key));
        EnqueueFirst(pending, ls[i].key, Listening(ls, kind, scope, i + 1));
      } else {
        WokenEnqueues(ls, kind, scope, i + 1, pending);
      }
    }
  }

  lemma {:induction false} EnqueueNone(queue: seq<Key>)
    ensures State.Enqueue(queue, []) == queue
  {}

  /** The groups woken are all scheduled if and only if those not scheduled yet fit in. */
  lemma {:induction false} WokenAreScheduled(ls: seq<Listener>, kind: nat, scope: Scope, pending: seq<Key>)
    requires |pending| <= State.MAX_QUEUE
    ensures (forall k :: k in Listening(ls, kind, scope, 0) ==> k in Woken(ls, kind, scope, 0, pending)) <==>
            |pending| + |Snapshots.New(pending, Listening(ls, kind, scope, 0))| <= State.MAX_QUEUE
  {
    WokenEnqueues(ls, kind, scope, 0, pending);
    Snapshots.AllScheduled(pending, Listening(ls, kind, scope, 0));
  }

  /** Whether a record stays depends on it alone, and those that stay keep their order. */
  lemma {:induction false} UnreadEach(a: seq<Record>, r: Record, b: seq<Record>)
    ensures Unread(a + [r] + b) == Unread(a) + (if r.readCount == 0 then [r] else []) + Unread(b)
    ensures Unread([]) == []
  {
    var one, rs := [r] + b, a + [r] + b;
    assert rs == a + one;
    UnreadTail(a, one, 0);
    UnreadTail([r], b, 0);
    assert UnreadFrom([r], 1) == [];
    assert UnreadFrom([r], 0) == (if r.readCount == 0 then [r] else []);
  }

  lemma {:induction false} UnreadFirst(rs: seq<Record>, i: nat)
    requires i < |rs|
    ensures UnreadFrom(rs, i) == (if rs[i].readCount == 0 then [rs[i]] else []) + UnreadFrom(rs, i + 1)
  {}

  lemma {:induction false} UnreadTail(a: seq<Record>, b: seq<Record>, i: nat)
    requires i <= |a|
    ensures UnreadFrom(a + b, i) == UnreadFrom(a, i) + UnreadFrom(b, 0)
    decreases |a| - i
  {
    if i == |a| {
      UnreadShift(a, b, 0);
      assert UnreadFrom(a, i) == [];
    } else {
      hide UnreadFrom;
      var x := if a[i].readCount == 0 then [a[i]] else [];
      UnreadTail(a, b, i + 1);
      UnreadFirst(a, i);
      UnreadFirst(a + b, i);
      assert x + (UnreadFrom(a, i + 1) + UnreadFrom(b, 0)) == (x + UnreadFrom(a, i + 1)) + UnreadFrom(b, 0);
    }
  }

  lemma {:induction false} UnreadShift(a: seq<Record>, b: seq<Record>, j: nat)
    requires j <= |b|
    ensures UnreadFrom(a + b, |a| + j) == UnreadFrom(b, j)
    decreases |b| - j
  {
    if j < |b| {
      UnreadShift(a, b, j + 1);
      assert (a + b)[|a| + j] == b[j];
    }
  }

  /** Retirement drops what has been received and keeps, in order, what nobody has: nothing
      is left that a group has just received, and every other record that was unread is. */
  lemma {:induction false} RetireKeepsUnread(rs: seq<Record>, q: Query)
    requires forall i :: 0 <= i < |rs| ==> (rs[i].readCount == 0 <==> rs[i].consumers == [])
    ensures Unread(Delivered(rs, q)) == Unmatched(Unread(rs), q)
  {
    RetireFrom(rs, q, 0);
  }

  /** The records that do not match q. */
  function Unmatched(rs: seq<Record>, q: Query): seq<Record> {
    if rs == [] then [] else (if Matches(rs[0], q) then [] else [rs[0]]) + Unmatched(rs[1..], q)
  }

  lemma {:induction false} RetireFrom(rs: seq<Record>, q: Query, i: nat)
    requires i <= |rs| && forall j :: 0 <= j < |rs| ==> (rs[j].readCount == 0 <==> rs[j].consumers == [])
    ensures UnreadFrom(Delivered(rs, q), i) == Unmatched(UnreadFrom(rs, i), q)
    decreases |rs| - i
  {
    if i < |rs| {
      RetireFrom(rs, q, i + 1);
      var rest := UnreadFrom(rs, i + 1);
      if rs[i].readCount == 0 {
        assert ([rs[i]] + rest)[1..] == rest;
      } else {
        assert [] + rest == rest;
      }
    }
  }

  // ------------------------------------------------------------------ what is delivered, and who is woken

  /** Indices of the records delivered to q from index i on. */
  function Picks(rs: seq<Record>, q: Query, i: nat): seq<nat>
    requires i <= |rs|
    decreases |rs| - i
  {
    if i == |rs| then [] else (if Wanted(rs, q, i) then [i] else []) + Picks(rs, q, i + 1)
  }

  lemma {:induction false} PicksNext(rs: seq<Record>, q: Query, i: nat)
    requires i < |rs|
    ensures Picks(rs, q, i) == if Wanted(rs, q, i) then [i] + Picks(rs, q, i + 1) else Picks(rs, q, i + 1)
  {
    hide Wanted;
    assert [] + Picks(rs, q, i + 1) == Picks(rs, q, i + 1);
  }

  /** Increasing, and nothing below i. */
  predicate Ascending(at: seq<nat>, i: nat) {
    (forall j :: 0 <= j < |at| ==> i <= at[j]) && forall j, k :: 0 <= j < k < |at| ==> at[j] < at[k]
  }

  lemma {:induction false} AscendingPush(i: nat, rest: seq<nat>)
    requires Ascending(rest, i + 1)
    ensures Ascending([i] + rest, i) && Ascending(rest, i)
  {}

  predicate AllWanted(rs: seq<Record>, q: Query, at: seq<nat>) {
    forall j :: 0 <= j < |at| ==> Wanted(rs, q, at[j])
  }

  lemma {:induction false} WantedPush(rs: seq<Record>, q: Query, i: nat, rest: seq<nat>)
    requires Wanted(rs, q, i) && AllWanted(rs, q, rest)
    ensures AllWanted(rs, q, [i] + rest)
  {
    hide Wanted;
  }

  lemma {:induction false} PicksAscend(rs: seq<Record>, q: Query, i: nat)
    requires i <= |rs|
    ensures Ascending(Picks(rs, q, i), i) && AllWanted(rs, q, Picks(rs, q, i))
    decreases |rs| - i
  {
    if i < |rs| {
      hide Wanted, Picks, Ascending, AllWanted;
      PicksAscend(rs, q, i + 1);
      PicksNext(rs, q, i);
      AscendingPush(i, Picks(rs, q, i + 1));
      if Wanted(rs, q, i) { WantedPush(rs, q, i, Picks(rs, q, i + 1)); }
    } else {
      assert Picks(rs, q, i) == [];
    }
  }

  /** All of them. */
  lemma {:induction false} PicksAll(rs: seq<Record>, q: Query, i: nat, x: nat)
    requires i <= x < |rs| && Wanted(rs, q, x)
    ensures x in Picks(rs, q, i)
    decreases x - i
  {
    hide Wanted, Picks;
    PicksNext(rs, q, i);
    if i < x {
      PicksAll(rs, q, i + 1, x);
    } else {
      assert ([i] + Picks(rs, q, i + 1))[0] == x;
    }
  }

  lemma {:induction false} PayloadNext(rs: seq<Record>, q: Query, i: nat)
    requires i < |rs|
    ensures DueFrom(rs, q, i) == if Wanted(rs, q, i) then [rs[i].payload] + DueFrom(rs, q, i + 1)
            else DueFrom(rs, q, i + 1)
  {
    assert [] + DueFrom(rs, q, i + 1) == DueFrom(rs, q, i + 1);
  }

  /** got lists the payloads of the records at the given indices. */
  predicate Carries(rs: seq<Record>, at: seq<nat>, got: seq<Payload>) {
    |got| == |at| && forall j :: 0 <= j < |at| ==> at[j] < |rs| && got[j] == rs[at[j]].payload
  }

  lemma {:induction false} CarriesPush(rs: seq<Record>, i: nat, at: seq<nat>, got: seq<Payload>)
    requires i < |rs| && Carries(rs, at, got)
    ensures Carries(rs, [i] + at, [rs[i].payload] + got)
  {}

  lemma {:induction false} DeliversPicks(rs: seq<Record>, q: Query, i: nat)
    requires i <= |rs|
    ensures Carries(rs, Picks(rs, q, i), DueFrom(rs, q, i))
    decreases |rs| - i
  {
    hide Wanted;
    if i < |rs| {
      hide Picks, DueFrom, Carries;
      DeliversPicks(rs, q, i + 1);
      PicksNext(rs, q, i);
      PayloadNext(rs, q, i);
      if Wanted(rs, q, i) { CarriesPush(rs, i, Picks(rs, q, i + 1), DueFrom(rs, q, i + 1)); }
    } else {
      assert Picks(rs, q, i) == [] && DueFrom(rs, q, i) == [];
    }
  }

  /** A group is given exactly the records that have the type and a scope asked for and that it has not
      read, each once, in the order in which they were posted. */
  lemma {:induction false} DeliversWanted(rs: seq<Record>, q: Query) returns (at: seq<nat>)
    ensures forall x: nat :: x in at <==> Wanted(rs, q, x)
    ensures forall j, k :: 0 <= j < k < |at| ==> at[j] < at[k]
    ensures var got := Deliverable(rs, q);
            |got| == |at| && forall j :: 0 <= j < |at| ==> at[j] < |rs| && got[j] == rs[at[j]].payload
  {
    at := Picks(rs, q, 0);
    PicksAscend(rs, q, 0);
    DeliversPicks(rs, q, 0);
    hide Picks, DueFrom;
    forall x: nat | Wanted(rs, q, x) ensures x in at { PicksAll(rs, q, 0, x); }
    forall x: nat | x in at ensures Wanted(rs, q, x) {
      var j :| 0 <= j < |at| && at[j] == x;
    }
  }

  /** Group key listens for events of the type and scope. */
  predicate Listens(ls: seq<Listener>, key: Key, kind: nat, scope: Scope) {
    exists k :: 0 <= k < |ls| && ls[k].key == key && ls[k].kind == kind && scope in ls[k].scopes
  }

  /** An event wakes exactly the groups that listen for its type and scope. */
  lemma {:induction false} WakesListeners(ls: seq<Listener>, kind: nat, scope: Scope, key: Key)
    ensures key in Listening(ls, kind, scope, 0) <==> Listens(ls, key, kind, scope)
  {
    if Listens(ls, key, kind, scope) {
      var k :| 0 <= k < |ls| && ls[k].key == key && ls[k].kind == kind && scope in ls[k].scopes;
      ListeningHas(ls, kind, scope, 0, k);
    }
    if key in Listening(ls, kind, scope, 0) { ListeningEntry(ls, kind, scope, 0, key); }
  }

  lemma {:induction false} ListeningEntry(ls: seq<Listener>, kind: nat, scope: Scope, i: nat, key: Key)
    requires i <= |ls| && key in Listening(ls, kind, scope, i)
    ensures Listens(ls, key, kind, scope)
    decreases |ls| - i
  {
    if !(ls[i].kind == kind && scope in ls[i].scopes && ls[i].key == key) {
      ListeningEntry(ls, kind, scope, i + 1, key);
    }
  }

  /** Where Registered makes its change. */
  lemma {:induction false} RegisteredIs(ls: seq<Listener>, q: Query, i: nat)
    requires i <= |ls| && forall k :: 0 <= k < i ==> !(ls[k].key == q.key && ls[k].kind == q.kind)
    ensures var r := Registered(ls, q, i);
            if HasEntry(ls, q) then
              exists k {:trigger ls[k]} :: 0 <= k < |ls| && ls[k].key == q.key && ls[k].kind == q.kind
                && r == ls[k := ls[k].(scopes := ls[k].scopes + q.scopes)]
            else r == if |ls| < MAX_LISTENERS then ls + [Listener(q.key, q.kind, q.scopes)] else ls
    decreases |ls| - i
  {
    if i < |ls| && !(ls[i].key == q.key && ls[i].kind == q.kind) {
      RegisteredIs(ls, q, i + 1);
    }
  }

  /** Asking adds the type and scopes asked for to what the group listens for, when there is room or an
      entry, and changes nothing else: neither its other scopes nor what other groups listen for. */
  lemma {:induction false} RegisterListensIff(ls: seq<Listener>, q: Query, key: Key, kind: nat, scope: Scope)
    ensures Listens(Registered(ls, q, 0), key, kind, scope) <==>
            || Listens(ls, key, kind, scope)
            || (key == q.key && kind == q.kind && scope in q.scopes && (|ls| < MAX_LISTENERS || HasEntry(ls, q)))
  {
    var r := Registered(ls, q, 0);
    RegisteredIs(ls, q, 0);
    if HasEntry(ls, q) {
      var n :| 0 <= n < |ls| && ls[n].key == q.key && ls[n].kind == q.kind
        && r == ls[n := ls[n].(scopes := ls[n].scopes + q.scopes)];
      forall k | 0 <= k < |ls| ensures r[k].key == ls[k].key && r[k].kind == ls[k].kind
          && ls[k].scopes <= r[k].scopes {}
      assert key == q.key && kind == q.kind && scope in q.scopes ==> scope in r[n].scopes;
    } else if |ls| < MAX_LISTENERS {
      assert r[|ls|] == Listener(q.key, q.kind, q.scopes);
      forall k | 0 <= k < |ls| ensures r[k] == ls[k] {}
    }
  }
}

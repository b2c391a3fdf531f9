/** Destructors over executions: the hooks on record under a key, and the destructor calls made for
    it, are exactly those that the executions and prunes of the group with that key account for. */
module Ledgers {
  import opened Basics
  import opened Trees
  import opened State
  import opened Programs
  import opened Passes
  import opened Flags
  import opened Census
  import opened Watchers
  import opened Executions
  import Marks
  import Pinning
  import opened Attachments
  import Hooks
  import Removal
  import Arenas

  /** The destructors of a key. */
  datatype Ledger = Ledger(
    on: seq<Hooks.Hook>,         // on record
    off: seq<Hooks.Hook>,        // called, in order
    made: seq<Hooks.Hook>,       // attached, in order
    refused: seq<Hooks.Hook>,    // attached when there was no room for another hook
    displaced: seq<Hooks.Hook>   // taken off the record by another instance, and never called
  )

  /** Every destructor that was attached is on record or called, or was refused or displaced, and
      exactly one of these. */
  ghost predicate Balanced(l: Ledger) {
    && (forall i {:trigger l.on[i]} :: 0 <= i < |l.on| ==> l.on[i].destroys)
    && multiset(l.made) == multiset(l.on) + multiset(l.off) + multiset(l.refused) + multiset(l.displaced)
  }

  /** The ledger when group id goes or starts over. */
  function Torn(l: Ledger, id: nat): Ledger {
    l.(on := Hooks.Kept(l.on, id), off := l.off + Hooks.Fired(l.on, id))
  }

  /** A group that runs again refreshes its first hook. */
  function Rewritten(l: Ledger, h: Hooks.Hook): Ledger
    requires l.on != []
  {
    if l.on[0].instance == h.instance then l
    else l.(on := l.on[0 := h], made := l.made + [h], displaced := l.displaced + [l.on[0]])
  }

  function Added(l: Ledger, h: Hooks.Hook, room: bool): Ledger {
    if room then l.(on := l.on + [h], made := l.made + [h]) else l.(made := l.made + [h], refused := l.refused + [h])
  }

  /** The ledger after a step of the group itself: a mounting group adds a hook while there is room,
      a group that runs again rewrites its first one. */
  function StepLedger(s: Step, info: Info, offset: nat, w: World, l: Ledger): Ledger {
    match s
    case Own(instance) =>
      var h := Hooks.Hook(info.key, info.id, instance, true);
      if !info.mount && l.on != [] then Rewritten(l, h) else Added(l, h, |w.hooks| < Hooks.MAX_HOOKS)
    case Remember(size) => if Pinning.Resizes(size, info, offset, w) then Torn(l, info.id) else l
    case _ => l
  }

  lemma {:induction false} FiredAll(hooks: seq<Hooks.Hook>, id: nat)
    requires forall i {:trigger hooks[i]} :: 0 <= i < |hooks| ==> hooks[i].groupId == id && hooks[i].destroys
    ensures Hooks.Kept(hooks, id) == [] && multiset(Hooks.Fired(hooks, id)) == multiset(hooks)
    decreases |hooks|
  {
    if hooks != [] {
      var front, last := hooks[..|hooks| - 1], hooks[|hooks| - 1];
      assert hooks[|hooks| - 1].groupId == id;
      FiredAll(front, id);
      assert hooks == front + [last];
      assert Hooks.Fired(hooks, id) == [last] + Hooks.Fired(front, id);
      assert multiset(front + [last]) == multiset(front) + multiset{last};
    }
  }

  /** A group that goes has all its destructors called. */
  lemma {:induction false} TornBalances(l: Ledger, id: nat)
    requires Balanced(l) && forall i {:trigger l.on[i]} :: 0 <= i < |l.on| ==> l.on[i].groupId == id
    ensures Balanced(Torn(l, id)) && Torn(l, id).on == []
  {
    FiredAll(l.on, id);
  }

  lemma {:induction false} RewrittenBalances(l: Ledger, h: Hooks.Hook)
    requires Balanced(l) && l.on != [] && h.destroys
    ensures Balanced(Rewritten(l, h))
  {
    if l.on[0].instance != h.instance {
      FirstReplaced(l.on, h);
      assert multiset(l.made + [h]) == multiset(l.made) + multiset{h};
      assert multiset(l.displaced + [l.on[0]]) == multiset(l.displaced) + multiset{l.on[0]};
    }
  }

  lemma {:induction false} FirstReplaced(hooks: seq<Hooks.Hook>, h: Hooks.Hook)
    requires hooks != []
    ensures multiset(hooks[0 := h]) + multiset{hooks[0]} == multiset(hooks) + multiset{h}
  {
    assert hooks == [hooks[0]] + hooks[1..] && hooks[0 := h] == [h] + hooks[1..];
  }

  lemma {:induction false} AddedBalances(l: Ledger, h: Hooks.Hook, room: bool)
    requires Balanced(l) && h.destroys
    ensures Balanced(Added(l, h, room))
  {
    assert multiset(l.made + [h]) == multiset(l.made) + multiset{h};
    if room {
      assert multiset(l.on + [h]) == multiset(l.on) + multiset{h};
    } else {
      assert multiset(l.refused + [h]) == multiset(l.refused) + multiset{h};
    }
  }

  // ------------------------------------------------------------------ the ledger of a key over a pass

  ghost function StepsLedger(p: Program, snap: Snapshot, steps: seq<Step>, info: Info, offset: nat, rest: Forest,
                             w: World,
                             k: Key, l: Ledger): Ledger
    requires Ready(p, info.key, steps)
    decreases MAX_DEPTH - |p.path(info.key)|, |steps|
  {
    if steps == [] then l
    else if steps[0].Call? then
      assert Emits(p, info.key, steps[0].child);
      var v := Visit(p, snap, steps[0].child, rest, w);
      StepsLedger(p, snap, steps[1..], info, offset, v.rest, v.w, k,
          VisitLedger(p, snap, steps[0].child, rest, w, k, l))
    else
      var a := Apply(steps[0], info, offset, w);
      assert a.info.key == info.key by { ApplyKeeps(steps[0], info, offset, w); }
      StepsLedger(p, snap, steps[1..], a.info, a.offset, rest, a.w, k,
                  if info.key == k then StepLedger(steps[0], info, offset, w, l) else l)
  }

  ghost function VisitLedger(p: Program, snap: Snapshot, c: Key, rest: Forest, w: World, k: Key, l: Ledger): Ledger
    requires WellFormed(p) && 0 < |p.path(c)| <= MAX_DEPTH
    decreases MAX_DEPTH - |p.path(c)| + 1, 0
  {
    match Admit(c, rest, w)
    case Skip(_, _, _) => l
    case Enter(info, kids, _, w') => BodyLedger(p, snap, info, kids, w', k, l)
  }

  /** The body runs; then the children it left out go, the group with key k among them perhaps. */
  ghost function BodyLedger(p: Program, snap: Snapshot, info: Info, kids: Forest, w: World, k: Key, l: Ledger): Ledger
    requires WellFormed(p) && |p.path(info.key)| <= MAX_DEPTH
    decreases MAX_DEPTH - |p.path(info.key)|, |p.body(info.key, snap)| + 1
  {
    assert Nested(p, info.key, p.body(info.key, snap));
    var w1 := w.(ran := w.ran + [info.id]);
    var left := Exec(p, snap, p.body(info.key, snap), info, 0, kids, w1).rest;
    Pruned(left, k, StepsLedger(p, snap, p.body(info.key, snap), info, 0, kids, w1, k, l))
  }

  function Pruned(f: Forest, k: Key, l: Ledger): Ledger {
    match Holder(f, k)
    case None => l
    case Some(id) => Torn(l, id)
  }

  // ------------------------------------------------------------------ who holds a key

  /** Identity of the first group of f with key k. */
  function Holder(f: Forest, k: Key): Option<nat> {
    match f
    case Nil => None
    case Tree(info, kids, next) => if info.key == k then Some(info.id) else Either(Holder(kids, k), Holder(next, k))
  }

  function Either(a: Option<nat>, b: Option<nat>): Option<nat> {
    if a.Some? then a else b
  }

  lemma {:induction false} HolderKey(f: Forest, k: Key)
    ensures Holder(f, k).Some? <==> HasKey(f, k)
    ensures Holder(f, k).Some? ==> Count(f, Holder(f, k).value) > 0
  {
    if f.Tree? {
      HolderKey(f.kids, k);
      HolderKey(f.next, k);
    }
  }

  lemma {:induction false} HolderAppend(f: Forest, g: Forest, k: Key)
    ensures Holder(Append(f, g), k) == Either(Holder(f, k), Holder(g, k))
  {
    if f.Tree? {
      HolderAppend(f.next, g, k);
    }
  }

  /** In a conforming forest a key is held below the root that its path names, or nowhere. */
  lemma {:induction false} HolderBranch(p: Program, q: Key, f: Forest, k: Key)
    requires Conform(p, q, f)
    ensures Holder(f, k).Some? ==> Under(p, q, k) && HasRoot(f, Branch(p, q, k))
  {
    HolderKey(f, k);
    if Holder(f, k).Some? { KeyHasBranch(p, q, f, k); }
  }

  /** Taking out the root on the way to k takes its holder; taking out another root does not. */
  lemma {:induction false} HolderPick(p: Program, q: Key, f: Forest, c: Key, k: Key)
    requires Conform(p, q, f) && HasRoot(f, c) && Under(p, q, k)
    ensures Branch(p, q, k) == c ==> Holder(Pick(f, c), k) == Holder(f, k) && Holder(Drop(f, c), k) == None
    ensures Branch(p, q, k) != c ==> Holder(Drop(f, c), k) == Holder(f, k) && Holder(Pick(f, c), k) == None
  {
    ConformPick(p, q, f, c);
    HolderBranch(p, q, Pick(f, c), k);
    HolderBranch(p, q, Drop(f, c), k);
    HolderSplits(f, c, k);
  }

  lemma {:induction false} HolderSplits(f: Forest, c: Key, k: Key)
    requires HasRoot(f, c)
    ensures Holder(f, k) == Holder(Pick(f, c), k) || Holder(f, k) == Holder(Drop(f, c), k)
    ensures Holder(f, k).Some? <==> Holder(Pick(f, c), k).Some? || Holder(Drop(f, c), k).Some?
  {
    if f.info.key != c {
      HolderSplits(f.next, c, k);
    }
  }

  // ------------------------------------------------------------------ hooks and the ledger

  /** The hooks under k belong to its holder, and no hook is from the future. */
  ghost predicate Sane(w: World, k: Key, holder: Option<nat>) {
    Private(w.hooks, k, holder) && Born(w.hooks, w.next) && (holder.Some? ==> holder.value < w.next)
  }

  predicate Born(hooks: seq<Hooks.Hook>, next: nat) {
    forall i {:trigger hooks[i]} :: 0 <= i < |hooks| ==> hooks[i].groupId < next
  }

  ghost predicate On(w: World, k: Key, l: Ledger) {
    HooksOf(w.hooks, k) == l.on && HooksOf(w.destroyed, k) == l.off && Balanced(l)
  }

  lemma {:induction false} BornRegister(hooks: seq<Hooks.Hook>, h: Hooks.Hook, next: nat)
    requires h.groupId < next && Born(hooks, next)
    ensures Born(Hooks.Register(hooks, h), next) && Born(Hooks.Update(hooks, h), next)
  {
    UpdateIs(hooks, h, 0);
  }

  lemma {:induction false} BornKept(hooks: seq<Hooks.Hook>, id: nat, next: nat)
    requires Born(hooks, next)
    ensures Born(Hooks.Kept(hooks, id), next)
    decreases |hooks|
  {
    if hooks != [] {
      var last := hooks[|hooks| - 1];
      BornKept(hooks[..|hooks| - 1], id, next);
      assert last.groupId < next;
    }
  }

  lemma {:induction false} ForeignReset(id: nat, w: World, k: Key, holder: Option<nat>, l: Ledger)
    requires Sane(w, k, holder) && On(w, k, l) && Some(id) != holder
    ensures Sane(Reset(id, w), k, holder) && On(Reset(id, w), k, l)
  {
    ForeignGone(w.hooks, id, k, holder);
    BornKept(w.hooks, id, w.next);
    HooksOfJoin(w.destroyed, Hooks.Fired(w.hooks, id), k);
    assert l.off + [] == l.off;
  }

  /** The hooks under a key that one group holds are its own. */
  lemma {:induction false} HooksOfHolder(hooks: seq<Hooks.Hook>, k: Key, id: nat)
    requires Private(hooks, k, Some(id))
    ensures forall i {:trigger HooksOf(hooks, k)[i]} :: 0 <= i < |HooksOf(hooks, k)| ==>
              HooksOf(hooks, k)[i].groupKey == k && HooksOf(hooks, k)[i].groupId == id
    decreases |hooks|
  {
    if hooks != [] {
      var front, last := hooks[..|hooks| - 1], hooks[|hooks| - 1];
      assert hooks[|hooks| - 1].groupKey == k <==> hooks[|hooks| - 1].groupId == id;
      HooksOfHolder(front, k, id);
    }
  }

  /** The holder starts over or goes. */
  lemma {:induction false} OwnReset(id: nat, w: World, k: Key, l: Ledger)
    requires Sane(w, k, Some(id)) && On(w, k, l)
    ensures Sane(Reset(id, w), k, Some(id)) && Sane(Reset(id, w), k, None) && On(Reset(id, w), k, Torn(l, id))
  {
    hide Balanced, Hooks.Kept, Hooks.Fired, HooksOf;
    OwnGone(w.hooks, id, k);
    BornKept(w.hooks, id, w.next);
    HooksOfJoin(w.destroyed, Hooks.Fired(w.hooks, id), k);
    HooksOfHolder(w.hooks, k, id);
    TornBalances(l, id);
  }

  lemma {:induction false} SaneSame(w: World, w': World, k: Key, holder: Option<nat>, l: Ledger)
    requires Sane(w, k, holder) && On(w, k, l)
    requires w'.hooks == w.hooks && w'.destroyed == w.destroyed && w.next <= w'.next
    ensures Sane(w', k, holder) && On(w', k, l)
  {}

  // ------------------------------------------------------------------ single steps

  lemma {:induction false} MountHooks(size: nat, info: Info, offset: nat, w: World)
    ensures var a := Mount(size, info, offset, w);
            a.w.hooks == w.hooks && a.w.destroyed == w.destroyed && a.w.next == w.next
  {}

  /** A request touches the hooks only when the group starts over. */
  lemma {:induction false} RememberHooks(size: nat, info: Info, offset: nat, w: World)
    ensures var a := ApplyRemember(size, info, offset, w);
            && a.w.next == w.next
            && (Pinning.Resizes(size, info, offset, w) ==>
                  a.w.hooks == Reset(info.id, w).hooks && a.w.destroyed == Reset(info.id, w).destroyed)
            && (!Pinning.Resizes(size, info, offset, w) ==> a.w.hooks == w.hooks && a.w.destroyed == w.destroyed)
  {
    hide Mount, Arenas.Lookup;
    if info.mount {
      MountHooks(size, info, offset, w);
    } else {
      match Arenas.Lookup(w.arena, info.id, offset)
      case None =>
      case Some(i) =>
        MountHooks(size, info.(mount := true), offset, Reset(info.id, w.(arena := w.arena.(hint := i + 1))));
    }
  }

  /** A step of another group. */
  lemma {:induction false} ForeignStep(s: Step, info: Info, offset: nat, w: World, k: Key, holder: Option<nat>,
                                       l: Ledger)
    requires !s.Call? && info.key != k && Some(info.id) != holder && info.id < w.next && Sane(w, k, holder)
             && On(w, k, l)
    ensures var a := Apply(s, info, offset, w); Sane(a.w, k, holder) && On(a.w, k, l)
  {
    match s
    case Own(instance) =>
      var h := Hooks.Hook(info.key, info.id, instance, true);
      BornRegister(w.hooks, h, w.next);
      if info.mount { ForeignRegister(w.hooks, h, k, holder); } else { ForeignUpdate(w.hooks, h, k, holder); }
    case Remember(size) =>
      RememberHooks(size, info, offset, w);
      ForeignReset(info.id, w, k, holder, l);
    case _ =>
  }

  /** A step of the group itself. */
  lemma {:induction false} OwnStep(s: Step, info: Info, offset: nat, w: World, l: Ledger)
    requires !s.Call? && Sane(w, info.key, Some(info.id)) && On(w, info.key, l)
    ensures var a := Apply(s, info, offset, w);
            Sane(a.w, info.key, Some(info.id)) && On(a.w, info.key, StepLedger(s, info, offset, w, l))
  {
    hide Hooks.Register, Hooks.Update, HooksOf, Balanced, ApplyRemember;
    match s
    case Own(instance) =>
      var h := Hooks.Hook(info.key, info.id, instance, true);
      if info.mount { OwnAdds(w, h, l); } else { OwnRefreshes(w, h, l); }
    case Remember(size) =>
      RememberHooks(size, info, offset, w);
      OwnReset(info.id, w, info.key, l);
    case _ =>
  }

  lemma {:induction false} OwnAdds(w: World, h: Hooks.Hook, l: Ledger)
    requires h.destroys && Sane(w, h.groupKey, Some(h.groupId)) && On(w, h.groupKey, l)
    ensures var w1 := w.(hooks := Hooks.Register(w.hooks, h));
            Sane(w1, h.groupKey, Some(h.groupId)) && On(w1, h.groupKey, Added(l, h, |w.hooks| < Hooks.MAX_HOOKS))
  {
    hide Hooks.Register, Hooks.Update, HooksOf, Balanced;
    BornRegister(w.hooks, h, w.next);
    OwnRegister(w.hooks, h);
    AddedBalances(l, h, |w.hooks| < Hooks.MAX_HOOKS);
  }

  lemma {:induction false} OwnRefreshes(w: World, h: Hooks.Hook, l: Ledger)
    requires h.destroys && Sane(w, h.groupKey, Some(h.groupId)) && On(w, h.groupKey, l)
    ensures var w1 := w.(hooks := Hooks.Update(w.hooks, h));
            && Sane(w1, h.groupKey, Some(h.groupId))
            && On(w1, h.groupKey, if l.on != [] then Rewritten(l, h) else Added(l, h, |w.hooks| < Hooks.MAX_HOOKS))
  {
    hide Hooks.Register, Hooks.Update, HooksOf, Private, Born;
    BornRegister(w.hooks, h, w.next);
    OwnUpdate(w.hooks, h);
    HooksOfHolder(w.hooks, h.groupKey, h.groupId);
    if l.on != [] {
      RewrittenBalances(l, h);
      assert l.on[0].destroys && l.on[0].groupId == h.groupId && l.on[0].groupKey == h.groupKey;
      assert l.on[0].instance == h.instance ==> l.on[0] == h && l.on[0 := h] == l.on;
    } else {
      assert [] + [h] == [h];
      AddedBalances(l, h, |w.hooks| < Hooks.MAX_HOOKS);
    }
  }

  // ------------------------------------------------------------------ prunes

  lemma {:induction false} ForeignTearDown(infos: seq<Info>, w: World, k: Key, holder: Option<nat>, l: Ledger)
    requires Sane(w, k, holder) && On(w, k, l) && (holder.Some? ==> CountList(infos, holder.value) == 0)
    ensures Sane(TearDownAll(infos, w), k, holder) && On(TearDownAll(infos, w), k, l)
    decreases |infos|
  {
    if infos != [] {
      ForeignReset(infos[0].id, w, k, holder, l);
      SaneSame(Reset(infos[0].id, w), TearDown(infos[0], w), k, holder, l);
      ForeignTearDown(infos[1..], TearDown(infos[0], w), k, holder, l);
    }
  }

  lemma {:induction false} OwnTearDown(infos: seq<Info>, w: World, k: Key, id: nat, l: Ledger)
    requires Sane(w, k, Some(id)) && On(w, k, l) && CountList(infos, id) == 1
    ensures Sane(TearDownAll(infos, w), k, None) && On(TearDownAll(infos, w), k, Torn(l, id))
    decreases |infos|
  {
    var w1 := TearDown(infos[0], w);
    if infos[0].id == id {
      OwnReset(id, w, k, l);
      SaneSame(Reset(id, w), w1, k, None, Torn(l, id));
      ForeignTearDown(infos[1..], w1, k, None, Torn(l, id));
    } else {
      ForeignReset(infos[0].id, w, k, Some(id), l);
      SaneSame(Reset(infos[0].id, w), w1, k, Some(id), l);
      OwnTearDown(infos[1..], w1, k, id, l);
    }
  }

  lemma {:induction false} ForeignPrune(f: Forest, w: World, k: Key, holder: Option<nat>, l: Ledger)
    requires Sane(w, k, holder) && On(w, k, l) && (holder.Some? ==> Count(f, holder.value) == 0)
    ensures Sane(Prune(f, w), k, holder) && On(Prune(f, w), k, l)
  {
    Removal.PruneIsTearDown(f, w);
    if holder.Some? { CountVictims(f, holder.value); }
    ForeignTearDown(Removal.Victims(f), w, k, holder, l);
  }

  lemma {:induction false} OwnPrune(f: Forest, w: World, k: Key, l: Ledger)
    requires Sane(w, k, Holder(f, k)) && On(w, k, l) && (Holder(f, k).Some? ==> Count(f, Holder(f, k).value) <= 1)
    ensures Sane(Prune(f, w), k, None) && On(Prune(f, w), k, Pruned(f, k, l))
  {
    match Holder(f, k)
    case None => ForeignPrune(f, w, k, None, l);
    case Some(id) =>
      HolderKey(f, k);
      Removal.PruneIsTearDown(f, w);
      CountVictims(f, id);
      OwnTearDown(Removal.Victims(f), w, k, id, l);
  }

  // ------------------------------------------------------------------ identities

  /** No identity occurs twice in f, and none is still to be handed out. */
  ghost predicate Apart(f: Forest, w: World) {
    forall id: nat {:trigger Count(f, id)} :: Count(f, id) <= if id < w.next then 1 else 0
  }

  lemma {:induction false} ApartVisit(p: Program, snap: Snapshot, c: Key, rest: Forest, w: World)
    requires WellFormed(p) && 0 < |p.path(c)| <= MAX_DEPTH && Apart(rest, w)
    ensures var v := Visit(p, snap, c, rest, w); Apart(v.rest, v.w) && Apart(Append(v.done, v.rest), v.w)
  {
    var v := Visit(p, snap, c, rest, w);
    VisitGrows(p, snap, c, rest, w);
    forall id: nat ensures Count(v.done, id) + Count(v.rest, id) <= if id < v.w.next then 1 else 0 {
      VisitBalance(p, snap, c, rest, w, id);
      Pinning.TimesGrow(w.pruned, v.w.pruned, id);
      assert Count(rest, id) <= if id < w.next then 1 else 0;
    }
    forall id: nat ensures Count(Append(v.done, v.rest), id) == Count(v.done, id) + Count(v.rest, id) {
      CountAppend(v.done, v.rest, id);
    }
  }

  lemma {:induction false} ApartExec(p: Program, snap: Snapshot, steps: seq<Step>, info: Info, offset: nat,
                                     rest: Forest, w: World)
    requires Ready(p, info.key, steps) && Apart(rest, w)
    ensures var r := Exec(p, snap, steps, info, offset, rest, w); Apart(Append(r.done, r.rest), r.w)
  {
    var r := Exec(p, snap, steps, info, offset, rest, w);
    ExecGrows(p, snap, steps, info, offset, rest, w);
    forall id: nat ensures Count(Append(r.done, r.rest), id) <= if id < r.w.next then 1 else 0 {
      ExecBalance(p, snap, steps, info, offset, rest, w, id);
      Pinning.TimesGrow(w.pruned, r.w.pruned, id);
      CountAppend(r.done, r.rest, id);
      assert Count(rest, id) <= if id < w.next then 1 else 0;
    }
  }

  /** The parts of a forest without doubles share no identity. */
  lemma {:induction false} ApartParts(f: Forest, g: Forest, w: World, id: nat)
    requires Apart(Append(f, g), w)
    ensures Count(f, id) + Count(g, id) <= if id < w.next then 1 else 0
  {
    CountAppend(f, g, id);
    assert Count(Append(f, g), id) <= if id < w.next then 1 else 0;
  }

  lemma {:induction false} ApartPick(f: Forest, c: Key, w: World)
    requires HasRoot(f, c) && Apart(f, w)
    ensures var t := Pick(f, c);
            && t.info.id < w.next && Count(t.kids, t.info.id) == 0 && Apart(t.kids, w)
            && forall id: nat {:trigger Count(t, id)} :: Count(t, id) + Count(Drop(f, c), id) <= 1
  {
    var t := Pick(f, c);
    forall id: nat ensures Count(t, id) + Count(Drop(f, c), id) <= if id < w.next then 1 else 0 {
      CountPick(f, c, id);
      assert Count(f, id) <= if id < w.next then 1 else 0;
    }
    assert Count(t, t.info.id) >= 1;
    forall id: nat ensures Count(t.kids, id) <= if id < w.next then 1 else 0 {
      assert Count(t, id) + Count(Drop(f, c), id) <= if id < w.next then 1 else 0;
    }
  }

  // ------------------------------------------------------------------ executions that do not reach the key

  /** Group j is none of those that run when group id runs with these children. */
  predicate Outside(holder: Option<nat>, id: nat, kids: Forest) {
    holder.Some? ==> holder.value != id && Count(kids, holder.value) == 0
  }

  /** A body that neither is the body of k nor calls towards k. */
  lemma {:induction false} StepsAside(p: Program, snap: Snapshot, steps: seq<Step>, info: Info, offset: nat,
                                      rest: Forest, w: World,
                                      k: Key, holder: Option<nat>, l: Ledger)
    requires Proper(p, info.key, steps) && Conform(p, info.key, rest) && k != info.key && Safe(p, info.key, steps, k)
    requires info.id < w.next && Apart(rest, w) && Outside(holder, info.id, rest) && Sane(w, k, holder) && On(w, k, l)
    ensures var r := Exec(p, snap, steps, info, offset, rest, w);
            Sane(r.w, k, holder) && On(r.w, k, l) && StepsLedger(p, snap, steps, info, offset, rest, w, k, l) == l
    decreases MAX_DEPTH - |p.path(info.key)|, |steps|
  {
    hide Visit, Apply, VisitLedger, Balanced, HooksOf, Private, Born;
    if steps != [] {
      if Under(p, info.key, k) { CalledTail(steps, Branch(p, info.key, k)); }
      if steps[0].Call? {
        var c := steps[0].child;
        assert Emits(p, info.key, c) && Called(steps, c);
        UnderChild(p, info.key, c, k);
        if holder.Some? && HasRoot(rest, c) { CountPick(rest, c, holder.value); }
        VisitAside(p, snap, info.key, c, rest, w, k, holder, l);
        VisitConforms(p, snap, info.key, c, rest, w);
        VisitGrows(p, snap, c, rest, w);
        ApartVisit(p, snap, c, rest, w);
        if holder.Some? { VisitAbsent(p, snap, c, rest, w, holder.value); }
        var v := Visit(p, snap, c, rest, w);
        StepsAside(p, snap, steps[1..], info, offset, v.rest, v.w, k, holder, l);
      } else {
        var a := Apply(steps[0], info, offset, w);
        ApplyKeeps(steps[0], info, offset, w);
        ForeignStep(steps[0], info, offset, w, k, holder, l);
        StepsAside(p, snap, steps[1..], a.info, a.offset, rest, a.w, k, holder, l);
      }
    }
  }

  lemma {:induction false} VisitAside(p: Program, snap: Snapshot, q: Key, c: Key, rest: Forest, w: World,
                                      k: Key, holder: Option<nat>, l: Ledger)
    requires Keyed(p) && Emits(p, q, c) && Conform(p, q, rest) && c != k && !Under(p, c, k)
    requires Sane(w, k, holder) && On(w, k, l) && Apart(rest, w)
    requires HasRoot(rest, c) && holder.Some? ==> Count(Pick(rest, c), holder.value) == 0
    ensures var v := Visit(p, snap, c, rest, w);
            Sane(v.w, k, holder) && On(v.w, k, l) && VisitLedger(p, snap, c, rest, w, k, l) == l
    decreases MAX_DEPTH - |p.path(c)| + 1, 0
  {
    hide RunBody, BodyLedger, Balanced, HooksOf, Private, Born;
    if HasRoot(rest, c) {
      var t := Pick(rest, c);
      ConformPick(p, q, rest, c);
      ApartPick(rest, c, w);
      if Dirty(t.info) {
        BodyAside(p, snap, Cleared(t.info), t.kids, w, k, holder, l);
      }
    } else if w.room > 0 {
      var w1 := w.(next := w.next + 1, room := w.room - 1);
      SaneSame(w, w1, k, holder, l);
      BodyAside(p, snap, NewGroup(c, w.next), Nil, w1, k, holder, l);
    }
  }

  lemma {:induction false} BodyAside(p: Program, snap: Snapshot, info: Info, kids: Forest, w: World,
                                     k: Key, holder: Option<nat>, l: Ledger)
    requires Keyed(p) && |p.path(info.key)| <= MAX_DEPTH && Conform(p, info.key, kids)
    requires info.key != k && !Under(p, info.key, k)
    requires info.id < w.next && Apart(kids, w) && Outside(holder, info.id, kids) && Sane(w, k, holder) && On(w, k, l)
    ensures var b := RunBody(p, snap, info, kids, w);
            Sane(b.w, k, holder) && On(b.w, k, l) && BodyLedger(p, snap, info, kids, w, k, l) == l
    decreases MAX_DEPTH - |p.path(info.key)|, |p.body(info.key, snap)| + 1
  {
    hide Balanced, HooksOf, Private, Born;
    var steps, w1 := p.body(info.key, snap), w.(ran := w.ran + [info.id]);
    var r := Exec(p, snap, steps, info, 0, kids, w1);
    StepsAside(p, snap, steps, info, 0, kids, w1, k, holder, l);
    ExecConforms(p, snap, steps, info, 0, kids, w1);
    HolderBranch(p, info.key, r.rest, k);
    if holder.Some? { StepsAbsent(p, snap, steps, info, 0, kids, w1, holder.value); }
    ForeignPrune(r.rest, r.w, k, holder, l);
  }

  // ------------------------------------------------------------------ executions of the group itself

  /** A child called by the group itself leaves the ledger, and the group, alone. */
  lemma {:induction false} ChildBeside(p: Program, snap: Snapshot, info: Info, c: Key, rest: Forest, w: World,
                                       l: Ledger)
    requires Keyed(p) && Emits(p, info.key, c) && Conform(p, info.key, rest)
    requires info.id < w.next && Apart(rest, w) && Count(rest, info.id) == 0
    requires Sane(w, info.key, Some(info.id)) && On(w, info.key, l)
    ensures var v := Visit(p, snap, c, rest, w);
            && Conform(p, info.key, v.rest) && info.id < v.w.next && Apart(v.rest, v.w) && Count(v.rest, info.id) == 0
            && Sane(v.w, info.key, Some(info.id)) && On(v.w, info.key, l)
            && VisitLedger(p, snap, c, rest, w, info.key, l) == l
  {
    hide Visit, VisitLedger, On, Sane;
    UnderChild(p, info.key, c, info.key);
    if HasRoot(rest, c) { CountPick(rest, c, info.id); }
    VisitAside(p, snap, info.key, c, rest, w, info.key, Some(info.id), l);
    VisitConforms(p, snap, info.key, c, rest, w);
    VisitGrows(p, snap, c, rest, w);
    ApartVisit(p, snap, c, rest, w);
    VisitAbsent(p, snap, c, rest, w, info.id);
  }

  /** The body of k does to the hooks under k what the ledger says, whatever it calls. */
  lemma {:induction false} OwnSteps(p: Program, snap: Snapshot, steps: seq<Step>, info: Info, offset: nat,
                                    rest: Forest, w: World, l: Ledger)
    requires Proper(p, info.key, steps) && Conform(p, info.key, rest)
    requires info.id < w.next && Apart(rest, w) && Count(rest, info.id) == 0
    requires Sane(w, info.key, Some(info.id)) && On(w, info.key, l)
    ensures var r := Exec(p, snap, steps, info, offset, rest, w);
            Sane(r.w, info.key, Some(info.id))
                && On(r.w, info.key, StepsLedger(p, snap, steps, info, offset, rest, w, info.key, l))
    decreases |steps|
  {
    hide Visit, Apply, VisitLedger, On, Sane, StepLedger;
    if steps != [] {
      if steps[0].Call? {
        var c := steps[0].child;
        assert Emits(p, info.key, c);
        ChildBeside(p, snap, info, c, rest, w, l);
        var v := Visit(p, snap, c, rest, w);
        OwnSteps(p, snap, steps[1..], info, offset, v.rest, v.w, l);
      } else {
        var a := Apply(steps[0], info, offset, w);
        ApplyKeeps(steps[0], info, offset, w);
        OwnStep(steps[0], info, offset, w, l);
        OwnSteps(p, snap, steps[1..], a.info, a.offset, rest, a.w, StepLedger(steps[0], info, offset, w, l));
      }
    }
  }

  // ------------------------------------------------------------------ executions that reach the key

  /** The body of an ancestor of k. */
  lemma {:induction false} StepsHooked(p: Program, snap: Snapshot, steps: seq<Step>, info: Info, offset: nat,
                                       rest: Forest, w: World,
                                       k: Key, l: Ledger)
    requires Proper(p, info.key, steps) && Conform(p, info.key, rest) && Under(p, info.key, k)
    requires info.id < w.next && Apart(rest, w) && Count(rest, info.id) == 0
    requires Sane(w, k, Holder(rest, k)) && On(w, k, l)
    ensures var r := Exec(p, snap, steps, info, offset, rest, w);
            && Sane(r.w, k, Either(Holder(r.done, k), Holder(r.rest, k)))
            && On(r.w, k, StepsLedger(p, snap, steps, info, offset, rest, w, k, l))
    decreases MAX_DEPTH - |p.path(info.key)|, |steps|, 1
  {
    hide Visit, Apply, VisitLedger, Balanced, HooksOf, Private, Born;
    if steps == [] {
    } else if steps[0].Call? && Toward(p, steps[0].child, k) {
      StepsThrough(p, snap, steps, info, offset, rest, w, k, l);
    } else if steps[0].Call? {
      StepsBeside(p, snap, steps, info, offset, rest, w, k, l);
    } else {
      var a := Apply(steps[0], info, offset, w);
      ApplyKeeps(steps[0], info, offset, w);
      HolderKey(rest, k);
      ForeignStep(steps[0], info, offset, w, k, Holder(rest, k), l);
      StepsHooked(p, snap, steps[1..], a.info, a.offset, rest, a.w, k, l);
    }
  }

  /** k is c or below c. */
  predicate Toward(p: Program, c: Key, k: Key) {
    c == k || Under(p, c, k)
  }

  /** The call on the way to k, and the steps after it, which lead there no more. */
  lemma {:induction false} StepsThrough(p: Program, snap: Snapshot, steps: seq<Step>, info: Info, offset: nat,
                                        rest: Forest, w: World,
                                        k: Key, l: Ledger)
    requires Proper(p, info.key, steps) && Conform(p, info.key, rest) && Under(p, info.key, k)
    requires info.id < w.next && Apart(rest, w) && Count(rest, info.id) == 0
    requires Sane(w, k, Holder(rest, k)) && On(w, k, l)
    requires steps != [] && steps[0].Call? && Toward(p, steps[0].child, k)
    ensures var r := Exec(p, snap, steps, info, offset, rest, w);
            && Sane(r.w, k, Either(Holder(r.done, k), Holder(r.rest, k)))
            && On(r.w, k, StepsLedger(p, snap, steps, info, offset, rest, w, k, l))
    decreases MAX_DEPTH - |p.path(info.key)|, |steps|, 0
  {
    hide Visit, VisitLedger, Balanced, HooksOf, Private, Born;
    var c, tail := steps[0].child, steps[1..];
    assert Emits(p, info.key, c);
    UnderChild(p, info.key, c, k);
    VisitHooked(p, snap, info.key, c, rest, w, k, l);
    VisitConforms(p, snap, info.key, c, rest, w);
    VisitGrows(p, snap, c, rest, w);
    ApartVisit(p, snap, c, rest, w);
    VisitAbsent(p, snap, c, rest, w, info.id);
    var v := Visit(p, snap, c, rest, w);
    var holder, l1 := Holder(v.done, k), VisitLedger(p, snap, c, rest, w, k, l);
    HolderKey(v.done, k);
    if holder.Some? { ApartParts(v.done, v.rest, v.w, holder.value); }
    assert !Called(tail, c);
    StepsAside(p, snap, tail, info, offset, v.rest, v.w, k, holder, l1);
    ExecConforms(p, snap, tail, info, offset, v.rest, v.w);
    var r := Exec(p, snap, tail, info, offset, v.rest, v.w);
    HolderBranch(p, info.key, r.done, k);
    HolderBranch(p, info.key, r.rest, k);
    HolderAppend(v.done, r.done, k);
  }

  /** Another call, and the steps after it. */
  lemma {:induction false} StepsBeside(p: Program, snap: Snapshot, steps: seq<Step>, info: Info, offset: nat,
                                       rest: Forest, w: World,
                                       k: Key, l: Ledger)
    requires Proper(p, info.key, steps) && Conform(p, info.key, rest) && Under(p, info.key, k)
    requires info.id < w.next && Apart(rest, w) && Count(rest, info.id) == 0
    requires Sane(w, k, Holder(rest, k)) && On(w, k, l)
    requires steps != [] && steps[0].Call? && !Toward(p, steps[0].child, k)
    ensures var r := Exec(p, snap, steps, info, offset, rest, w);
            && Sane(r.w, k, Either(Holder(r.done, k), Holder(r.rest, k)))
            && On(r.w, k, StepsLedger(p, snap, steps, info, offset, rest, w, k, l))
    decreases MAX_DEPTH - |p.path(info.key)|, |steps|, 0
  {
    hide Visit, VisitLedger, Balanced, HooksOf, Private, Born;
    var c, tail, holder := steps[0].child, steps[1..], Holder(rest, k);
    assert Emits(p, info.key, c);
    UnderChild(p, info.key, c, k);
    PickAside(p, info.key, rest, w, c, k);
    VisitAside(p, snap, info.key, c, rest, w, k, holder, l);
    VisitConforms(p, snap, info.key, c, rest, w);
    VisitGrows(p, snap, c, rest, w);
    ApartVisit(p, snap, c, rest, w);
    VisitAbsent(p, snap, c, rest, w, info.id);
    VisitRest(p, snap, c, rest, w);
    var v := Visit(p, snap, c, rest, w);
    NotToward(p, v.done, c, k);
    StepsHooked(p, snap, tail, info, offset, v.rest, v.w, k, l);
    HolderAppend(v.done, Exec(p, snap, tail, info, offset, v.rest, v.w).done, k);
  }

  lemma {:induction false} VisitRest(p: Program, snap: Snapshot, c: Key, rest: Forest, w: World)
    requires WellFormed(p) && 0 < |p.path(c)| <= MAX_DEPTH
    ensures Visit(p, snap, c, rest, w).rest == if HasRoot(rest, c) then Drop(rest, c) else rest
  {
    hide RunBody;
  }

  lemma {:induction false} NotToward(p: Program, t: Forest, c: Key, k: Key)
    requires !Toward(p, c, k) && (t.Tree? ==> t.next == Nil && t.info.key == c && Conform(p, c, t.kids))
    ensures Holder(t, k) == None
  {
    if t.Tree? {
      HolderBranch(p, c, t.kids, k);
      assert Holder(t.next, k) == None;
    }
  }

  /** Taking out a root that is not on the way to k leaves its holder waiting. */
  lemma {:induction false} PickAside(p: Program, q: Key, f: Forest, w: World, c: Key, k: Key)
    requires Conform(p, q, f) && Under(p, q, k) && !Toward(p, c, k) && Apart(f, w)
    ensures HasRoot(f, c) ==> Holder(Drop(f, c), k) == Holder(f, k)
    ensures HasRoot(f, c) && Holder(f, k).Some? ==> Count(Pick(f, c), Holder(f, k).value) == 0
  {
    if HasRoot(f, c) {
      HolderPick(p, q, f, c, k);
      ConformPick(p, q, f, c);
      HolderBranch(p, c, Pick(f, c).kids, k);
      assert Holder(Pick(f, c).next, k) == None;
      HolderKey(Drop(f, c), k);
      ApartPick(f, c, w);
    }
  }

  lemma {:induction false} VisitHooked(p: Program, snap: Snapshot, q: Key, c: Key, rest: Forest, w: World, k: Key,
                                       l: Ledger)
    requires Keyed(p) && Emits(p, q, c) && Conform(p, q, rest) && Toward(p, c, k) && Apart(rest, w)
    requires Sane(w, k, Holder(rest, k)) && On(w, k, l)
    ensures var v := Visit(p, snap, c, rest, w);
            && Sane(v.w, k, Holder(v.done, k)) && On(v.w, k, VisitLedger(p, snap, c, rest, w, k, l))
            && Holder(v.rest, k) == None
    decreases MAX_DEPTH - |p.path(c)| + 1, 0
  {
    hide RunBody, BodyLedger, Balanced, HooksOf, Private, Born;
    UnderChild(p, q, c, k);
    if HasRoot(rest, c) {
      var t := Pick(rest, c);
      ConformPick(p, q, rest, c);
      HolderPick(p, q, rest, c, k);
      ApartPick(rest, c, w);
      if Dirty(t.info) {
        assert Holder(Tree(Cleared(t.info), t.kids, Nil), k) == Holder(t, k);
        BodyHooked(p, snap, Cleared(t.info), t.kids, w, k, l);
      }
    } else {
      HolderBranch(p, q, rest, k);
      if w.room > 0 {
        MountHooked(p, snap, c, w, w.(next := w.next + 1, room := w.room - 1), k, l);
      }
    }
  }

  /** A new group is mounted where no group holds k. */
  lemma {:induction false} MountHooked(p: Program, snap: Snapshot, c: Key, w: World, w1: World, k: Key, l: Ledger)
    requires Keyed(p) && |p.path(c)| <= MAX_DEPTH && Toward(p, c, k) && Sane(w, k, None) && On(w, k, l)
    requires w1.next == w.next + 1 && w1.hooks == w.hooks && w1.destroyed == w.destroyed
    ensures var b := RunBody(p, snap, NewGroup(c, w.next), Nil, w1);
            Sane(b.w, k, Holder(b.done, k)) && On(b.w, k, BodyLedger(p, snap, NewGroup(c, w.next), Nil, w1, k, l))
    decreases MAX_DEPTH - |p.path(c)|, |p.body(c, snap)| + 2
  {
    assert Holder(Nil, k) == None;
    BodyHooked(p, snap, NewGroup(c, w.next), Nil, w1, k, l);
  }

  lemma {:induction false} BodyHooked(p: Program, snap: Snapshot, info: Info, kids: Forest, w: World, k: Key, l: Ledger)
    requires Keyed(p) && |p.path(info.key)| <= MAX_DEPTH && Conform(p, info.key, kids) && Toward(p, info.key, k)
    requires info.id < w.next && Apart(kids, w) && Count(kids, info.id) == 0
    requires Sane(w, k, Holder(Tree(info, kids, Nil), k)) && On(w, k, l)
    ensures var b := RunBody(p, snap, info, kids, w);
            Sane(b.w, k, Holder(b.done, k)) && On(b.w, k, BodyLedger(p, snap, info, kids, w, k, l))
    decreases MAX_DEPTH - |p.path(info.key)|, |p.body(info.key, snap)| + 1, 1
  {
    if info.key == k {
      OwnBody(p, snap, info, kids, w, l);
    } else {
      AboveBody(p, snap, info, kids, w, k, l);
    }
  }

  lemma {:induction false} OwnBody(p: Program, snap: Snapshot, info: Info, kids: Forest, w: World, l: Ledger)
    requires Keyed(p) && |p.path(info.key)| <= MAX_DEPTH && Conform(p, info.key, kids)
    requires info.id < w.next && Apart(kids, w) && Count(kids, info.id) == 0
    requires Sane(w, info.key, Some(info.id)) && On(w, info.key, l)
    ensures var b := RunBody(p, snap, info, kids, w);
            Sane(b.w, info.key, Holder(b.done, info.key))
                && On(b.w, info.key, BodyLedger(p, snap, info, kids, w, info.key, l))
  {
    hide Balanced, HooksOf, Private, Born;
    var k, steps, w1 := info.key, p.body(info.key, snap), w.(ran := w.ran + [info.id]);
    var r := Exec(p, snap, steps, info, 0, kids, w1);
    UnderSelf(p, k);
    ExecGrows(p, snap, steps, info, 0, kids, w1);
    ExecConforms(p, snap, steps, info, 0, kids, w1);
    OwnSteps(p, snap, steps, info, 0, kids, w1, l);
    StepsAbsent(p, snap, steps, info, 0, kids, w1, info.id);
    HolderBranch(p, k, r.rest, k);
    ForeignPrune(r.rest, r.w, k, Some(info.id), StepsLedger(p, snap, steps, info, 0, kids, w1, k, l));
  }

  lemma {:induction false} AboveBody(p: Program, snap: Snapshot, info: Info, kids: Forest, w: World, k: Key, l: Ledger)
    requires Keyed(p) && |p.path(info.key)| <= MAX_DEPTH && Conform(p, info.key, kids) && info.key != k
             && Under(p, info.key, k)
    requires info.id < w.next && Apart(kids, w) && Count(kids, info.id) == 0
    requires Sane(w, k, Holder(Tree(info, kids, Nil), k)) && On(w, k, l)
    ensures var b := RunBody(p, snap, info, kids, w);
            Sane(b.w, k, Holder(b.done, k)) && On(b.w, k, BodyLedger(p, snap, info, kids, w, k, l))
    decreases MAX_DEPTH - |p.path(info.key)|, |p.body(info.key, snap)| + 1, 0
  {
    hide Balanced, HooksOf, Private, Born;
    var steps, w1 := p.body(info.key, snap), w.(ran := w.ran + [info.id]);
    var r := Exec(p, snap, steps, info, 0, kids, w1);
    assert Holder(Nil, k) == None;
    ExecGrows(p, snap, steps, info, 0, kids, w1);
    StepsHooked(p, snap, steps, info, 0, kids, w1, k, l);
    ExecConforms(p, snap, steps, info, 0, kids, w1);
    HolderBranch(p, info.key, r.done, k);
    HolderBranch(p, info.key, r.rest, k);
    ApartExec(p, snap, steps, info, 0, kids, w1);
    PruneHooked(r.done, r.rest, r.w, k, StepsLedger(p, snap, steps, info, 0, kids, w1, k, l));
  }

  lemma {:induction false} UnderSelf(p: Program, k: Key)
    ensures !Under(p, k, k)
  {}

  /** The children left out go. */
  lemma {:induction false} PruneHooked(done: Forest, rest: Forest, w: World, k: Key, l: Ledger)
    requires Apart(Append(done, rest), w) && Sane(w, k, Either(Holder(done, k), Holder(rest, k))) && On(w, k, l)
    requires Holder(done, k).Some? ==> Holder(rest, k) == None
    ensures Sane(Prune(rest, w), k, Holder(done, k)) && On(Prune(rest, w), k, Pruned(rest, k, l))
  {
    HolderKey(done, k);
    HolderKey(rest, k);
    if Holder(done, k).Some? {
      ApartParts(done, rest, w, Holder(done, k).value);
      ForeignPrune(rest, w, k, Holder(done, k), l);
    } else {
      if Holder(rest, k).Some? { ApartParts(done, rest, w, Holder(rest, k).value); }
      OwnPrune(rest, w, k, l);
    }
  }

  // ------------------------------------------------------------------ passes and runs

  ghost function PassLedger(p: Program, snap: Snapshot, tree: Forest, w: World, k: Key, l: Ledger): Ledger
    requires WellFormed(p)
  {
    if tree.Tree? && tree.info.key == p.root then BodyLedger(p, snap, tree.info, tree.kids, w, k, l)
    else
      var w1 := Prune(tree, w);
      var w2 := w1.(next := w1.next + 1, room := if w1.room > 0 then w1.room - 1 else 0);
      BodyLedger(p, snap, NewGroup(p.root, w1.next), Nil, w2, k, Pruned(tree, k, l))
  }

  /** Nothing has been composed yet, or the tree is that of the program. */
  ghost predicate Placed(p: Program, tree: Forest) {
    tree == Nil || Marks.Rooted(p, tree)
  }

  /** The body of the root, whether k is in its tree or nowhere in the program. */
  lemma {:induction false} RootHooked(p: Program, snap: Snapshot, info: Info, kids: Forest, w: World, k: Key, l: Ledger)
    requires Keyed(p) && info.key == p.root && Conform(p, p.root, kids)
    requires info.id < w.next && Apart(kids, w) && Count(kids, info.id) == 0
    requires Sane(w, k, Holder(Tree(info, kids, Nil), k)) && On(w, k, l)
    ensures var b := RunBody(p, snap, info, kids, w);
            Sane(b.w, k, Holder(b.done, k)) && On(b.w, k, BodyLedger(p, snap, info, kids, w, k, l))
  {
    if Toward(p, p.root, k) {
      BodyHooked(p, snap, info, kids, w, k, l);
    } else {
      var b := RunBody(p, snap, info, kids, w);
      NotToward(p, Tree(info, kids, Nil), p.root, k);
      BodyAside(p, snap, info, kids, w, k, None, l);
      RunBodyConforms(p, snap, info, kids, w);
      NotToward(p, b.done, p.root, k);
    }
  }

  /** Over a whole pass the hooks under k, and the destructor calls, are those in the ledger. */
  lemma {:induction false} PassHooked(p: Program, snap: Snapshot, tree: Forest, w: World, k: Key, l: Ledger)
    requires Keyed(p) && Placed(p, tree) && Apart(tree, w) && Sane(w, k, Holder(tree, k)) && On(w, k, l)
    ensures var b := Pass(p, snap, tree, w);
            && Placed(p, b.done) && Sane(b.w, k, Holder(b.done, k)) && On(b.w, k, PassLedger(p, snap, tree, w, k, l))
  {
    hide RunBody, BodyLedger;
    if tree.Tree? {
      ApartRoot(tree, w);
      RootHooked(p, snap, tree.info, tree.kids, w, k, l);
      RunBodyConforms(p, snap, tree.info, tree.kids, w);
      RunBodyGrows(p, snap, tree.info, tree.kids, w);
    } else {
      var w1 := w.(next := w.next + 1, room := if w.room > 0 then w.room - 1 else 0);
      var info := NewGroup(p.root, w.next);
      assert Prune(Nil, w) == w && Holder(Nil, k) == None && Pruned(Nil, k, l) == l;
      RootHooked(p, snap, info, Nil, w1, k, l);
      RunBodyConforms(p, snap, info, Nil, w1);
      RunBodyGrows(p, snap, info, Nil, w1);
    }
  }

  lemma {:induction false} ApartRoot(tree: Forest, w: World)
    requires tree.Tree? && tree.next == Nil && Apart(tree, w)
    ensures tree.info.id < w.next && Apart(tree.kids, w) && Count(tree.kids, tree.info.id) == 0
  {
    assert Count(tree.next, tree.info.id) == 0;
    assert Count(tree, tree.info.id) >= 1;
    forall id: nat ensures Count(tree.kids, id) <= if id < w.next then 1 else 0 {
      assert Count(tree, id) <= if id < w.next then 1 else 0;
    }
  }
}

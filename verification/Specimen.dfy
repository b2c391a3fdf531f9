/** A small composition that meets every hypothesis of the theorems about runs. */
module Specimen {
  import opened Basics
  import opened Trees
  import opened State
  import opened Programs
  import opened Passes
  import opened Flags
  import opened Frames
  import opened Incremental
  import Accounts
  import Arenas
  import Attachments
  import Hooks
  import Ledgers
  import Lifetimes

  const SCREEN: Key := 1
  const LABEL: Key := 2
  const TITLE: CellId := 9

  /** The screen watches the title and calls the label, which remembers 8 bytes and attaches a
      destructor. */
  function Body(k: Key, f: Snapshot): seq<Step> {
    if k == SCREEN then [Watch(TITLE), Call(LABEL)] else if k == LABEL then [Remember(8), Own(7)] else []
  }

  function Path(k: Key): seq<Key> {
    if k == SCREEN then [SCREEN] else if k == LABEL then [SCREEN, LABEL] else []
  }

  function Sample(): Program {
    Program(SCREEN, Body, Path)
  }

  function Empty(): World {
    World(1, 4, [Cell(TITLE, [1], [1], false, true, [])], Arenas.Arena([], 0, 64, 4, 0), [], [], [],
          false, false, false, [], [])
  }

  lemma {:induction false} SampleIsKeyed()
    ensures Keyed(Sample()) && Reactive(Sample()) && Sized(Sample())
  {
    var p := Sample();
    assert p.path(SCREEN) + [LABEL] == p.path(LABEL);
    assert Emits(p, SCREEN, LABEL);
    forall q, f ensures Nested(p, q, p.body(q, f)) && Distinct(p.body(q, f)) && Fits(p.body(q, f)) {
      assert p.body(q, f) == Body(q, f);
    }
    forall k, f, g ensures p.body(k, f) == p.body(k, g) {}
  }

  lemma {:induction false} LabelIsLone()
    ensures Accounts.Lone(Sample(), LABEL, 7)
  {
    var p := Sample();
    forall f {:trigger p.body(LABEL, f)} ensures Accounts.Alike(Accounts.Owns(p.body(LABEL, f)), 7) {
      var steps := p.body(LABEL, f);
      assert steps[1..] == [Own(7)] && [Own(7)][1..] == [];
      assert Accounts.Owns([Own(7)]) == [7] + Accounts.Owns([]) == [7];
      assert Accounts.Owns(steps) == [7];
    }
  }

  lemma {:induction false} EmptyStarts()
    requires Keyed(Sample())
    ensures Steady(Sample(), Status(Nil, Empty(), [], false)) && Lifetimes.Sound(Nil, Empty())
  {
    StartIsSteady(Sample(), Empty());
    Lifetimes.StartIsSound(Empty());
  }

  /** The label mounts: it gets its memory and has its destructor on record. */
  lemma {:induction false} LabelMounts(snap: Snapshot, info: Info, w: World)
    requires Keyed(Sample()) && info == NewGroup(LABEL, 2)
    requires w.arena == Empty().arena && w.hooks == []
    ensures var r := Exec(Sample(), snap, Body(LABEL, snap), info, 0, Nil, w);
            && r.done == Nil && r.rest == Nil && r.w.queue == w.queue && r.w.full == w.full && r.w.missed == w.missed
            && r.w.hooks == [Hooks.Hook(LABEL, 2, 7, true)]
  {
    var p, steps := Sample(), Body(LABEL, snap);
    assert Nested(p, LABEL, p.body(LABEL, snap));
    var a := Apply(Remember(8), info, 0, w);
    assert Arenas.AlignUp(8) == 8;
    assert Arenas.Grant(w.arena, 2, 0, 8) == Some((Arenas.Slot(2, 0, 0, 8, 8), 0));
    assert a.info.key == LABEL && a.info.id == 2 && a.info.mount && a.w.hooks == [];
    var b := Apply(Own(7), a.info, a.offset, a.w);
    assert b.w.hooks == [] + [Hooks.Hook(LABEL, 2, 7, true)];
    assert steps[1..] == [Own(7)] && [Own(7)][1..] == [];
    assert Exec(p, snap, [], b.info, b.offset, Nil, b.w) == Run(b.info, b.offset, Nil, Nil, b.w);
    assert Exec(p, snap, [Own(7)], a.info, a.offset, Nil, a.w).w == b.w;
  }

  lemma {:induction false} TitleFound(cells: seq<Cell>)
    requires |cells| == 1 && cells[0].id == TITLE && cells[0].inUse
    ensures Find(cells, TITLE) == 0
  {
    assert Names(cells[0], TITLE);
  }

  /** The screen subscribes to the title, with room to spare. */
  lemma {:induction false} ScreenWatches(w: World)
    requires w.cells == Empty().cells && !w.missed
    ensures Subscribed(TITLE, SCREEN, w) == w.(cells := [Cell(TITLE, [1], [1], false, true, [SCREEN])])
  {
    TitleFound(w.cells);
    var after := Subscribe(w.cells, TITLE, SCREEN);
    assert [] + [SCREEN] == [SCREEN];
    assert after == [Cell(TITLE, [1], [1], false, true, [SCREEN])];
    TitleFound(after);
    assert SCREEN in after[0].watchers;
  }

  lemma {:induction false} LabelVisited(snap: Snapshot, w: World)
    requires Keyed(Sample()) && w.arena == Empty().arena && w.hooks == [] && w.room == 3 && w.next == 2
    ensures 0 < |Sample().path(LABEL)| <= MAX_DEPTH
    ensures var v := Visit(Sample(), snap, LABEL, Nil, w);
            && v.rest == Nil && v.w.queue == w.queue && v.w.full == w.full && v.w.missed == w.missed
            && v.w.hooks == [Hooks.Hook(LABEL, 2, 7, true)]
            && v.done.Tree? && v.done.info.key == LABEL && v.done.info.id == 2 && v.done.kids == Nil
                  && v.done.next == Nil
  {
    hide Exec;
    var info, w1 := NewGroup(LABEL, 2), w.(next := 3, room := 2);
    assert Admit(LABEL, Nil, w) == Enter(info, Nil, Nil, w1);
    var w2 := w1.(ran := w1.ran + [2]);
    assert Ready(Sample(), LABEL, Body(LABEL, snap)) by { assert Nested(Sample(), LABEL, Sample().body(LABEL, snap)); }
    LabelMounts(snap, info, w2);
    ExecGrows(Sample(), snap, Body(LABEL, snap), info, 0, Nil, w2);
    var r := Exec(Sample(), snap, Body(LABEL, snap), info, 0, Nil, w2);
    assert Prune(Nil, r.w) == r.w;
  }

  lemma {:induction false} ScreenMounts(snap: Snapshot, w: World)
    requires Keyed(Sample()) && w.cells == Empty().cells && !w.missed && !w.full && w.queue == []
    requires w.arena == Empty().arena && w.hooks == [] && w.room == 3 && w.next == 2
    ensures var b := RunBody(Sample(), snap, NewGroup(SCREEN, 1), Nil, w);
            && b.w.queue == [] && !b.w.full && !b.w.missed && b.w.hooks == [Hooks.Hook(LABEL, 2, 7, true)]
            && b.done.Tree? && b.done.info.key == SCREEN && b.done.kids.Tree? && b.done.kids.info.key == LABEL
  {
    hide Visit;
    var p, info, w1 := Sample(), NewGroup(SCREEN, 1), w.(ran := w.ran + [1]);
    var steps := Body(SCREEN, snap);
    assert Nested(p, SCREEN, p.body(SCREEN, snap));
    ScreenWatches(w1);
    var a := Apply(Watch(TITLE), info, 0, w1);
    assert a == Applied(info, 0, Subscribed(TITLE, SCREEN, w1), None);
    LabelVisited(snap, a.w);
    var v := Visit(p, snap, LABEL, Nil, a.w);
    assert steps[1..] == [Call(LABEL)] && [Call(LABEL)][1..] == [];
    assert Exec(p, snap, [], info, 0, Nil, v.w) == Run(info, 0, Nil, Nil, v.w);
    assert Exec(p, snap, [Call(LABEL)], info, 0, Nil, a.w) == Run(info, 0, Append(v.done, Nil), Nil, v.w);
    var r := Exec(p, snap, steps, info, 0, Nil, w1);
    assert r == Run(info, 0, Append(v.done, Nil), Nil, v.w);
    assert Prune(Nil, r.w) == r.w;
    assert Append(v.done, Nil) == v.done;
  }

  /** So there is a frame that composes something and is done within all capacities, and its session
      meets what the theorems about runs ask for. */
  lemma {:induction false} SampleComposes()
    ensures Keyed(Sample()) && Reactive(Sample()) && Sized(Sample()) && Accounts.Lone(Sample(), LABEL, 7)
    ensures Steady(Sample(), Status(Nil, Empty(), [], false)) && Lifetimes.Sound(Nil, Empty())
    ensures var r := Frames.Run(Sample(), Status(Nil, Empty(), [], false), [[]], 1);
            && |r| == 1 && r[0].verdict == Done && !Failed(r[0].after.w)
            && HasKey(r[0].after.tree, SCREEN) && HasKey(r[0].after.tree, LABEL)
            && r[0].after.w.hooks == [Hooks.Hook(LABEL, 2, 7, true)]
  {
    SampleIsKeyed();
    EmptyStarts();
    LabelIsLone();
    hide RunBody;
    var p, s, w := Sample(), Status(Nil, Empty(), [], false), Empty();
    var frames: seq<seq<Act>> := [[]];
    assert Publish(w.cells) == w.cells;
    var w1 := w.(next := 2, room := 3);
    ScreenMounts(Snap(w.cells), w1);
    DrainNil([]);
    assert Prune(Nil, w) == w;
    var b := RunBody(p, Snap(w.cells), NewGroup(SCREEN, 1), Nil, w1);
    assert DrainOnce(p, Nil, w) == b;
    assert Settle(p, Nil, w, 1) == Outcome(Done, b.done, b.w);
    assert PerformAll(s, []) == s;
    var r := Recomposition(p, s, 1);
    assert Transfer([], []) == Queues([], []);
    assert r.verdict == Done && r.after.tree == b.done && r.after.w == b.w;
    assert frames[1..] == [];
    assert Frames.Run(p, s, frames, 1) == [r] + Frames.Run(p, r.after, frames[1..], 1) == [r];
  }

  /** The label as it stands after that frame, dirty again. */
  function LabelInfo(): Info {
    Info(LABEL, 2, true, false, false, 0, 8)
  }

  function LabelHook(): Hooks.Hook {
    Hooks.Hook(LABEL, 2, 7, true)
  }

  function LabelWorld(): World {
    Empty().(next := 3, room := 2, hooks := [LabelHook()],
             arena := Arenas.Arena([Arenas.Slot(2, 0, 0, 8, 8)], 8, 64, 4, 0))
  }

  /** It recalls its memory and refreshes its destructor without starting over. */
  lemma {:induction false} LabelRuns(snap: Snapshot)
    requires Keyed(Sample())
    ensures Ready(Sample(), LABEL, Body(LABEL, snap))
    ensures !Exec(Sample(), snap, Body(LABEL, snap), LabelInfo(), 0, Nil, LabelWorld()).info.mount
  {
    var p, steps, w := Sample(), Body(LABEL, snap), LabelWorld();
    assert Nested(p, LABEL, p.body(LABEL, snap));
    assert Arenas.Lookup(w.arena, 2, 0) == Some(0);
    var a := Apply(Remember(8), LabelInfo(), 0, w);
    assert a.info == LabelInfo();
    var b := Apply(Own(7), a.info, a.offset, a.w);
    assert b.info == LabelInfo();
    assert steps[1..] == [Own(7)] && [Own(7)][1..] == [];
    assert Exec(p, snap, [], b.info, b.offset, Nil, b.w).info == b.info;
    assert Exec(p, snap, [Own(7)], a.info, a.offset, Nil, a.w).info == b.info;
  }

  lemma {:induction false} LabelIsSane(l: Ledgers.Ledger)
    requires l == Ledgers.Ledger([LabelHook()], [], [LabelHook()], [], [])
    ensures Ledgers.Sane(LabelWorld(), LABEL, Some(2)) && Ledgers.On(LabelWorld(), LABEL, l)
    ensures Attachments.Instances(l.on, 2) == [7]
  {
    assert [LabelHook()][..0] == [];
    assert Attachments.HooksOf([LabelHook()], LABEL) == [] + [LabelHook()];
    assert Attachments.Instances([LabelHook()], 2) == [] + [7];
  }

  lemma {:induction false} LabelOwns(snap: Snapshot)
    ensures Accounts.Owns(Body(LABEL, snap)) == [7]
  {
    var steps := Body(LABEL, snap);
    assert steps[1..] == [Own(7)] && [Own(7)][1..] == [];
    assert Accounts.Owns([Own(7)]) == [7] + Accounts.Owns([]);
  }

  /** The theorem about executions that run again speaks of it. */
  lemma {:induction false} LabelKeepsDestructor(snap: Snapshot)
    ensures Keyed(Sample()) && Ready(Sample(), LABEL, Body(LABEL, snap))
    ensures var l := Ledgers.Ledger([LabelHook()], [], [LabelHook()], [], []);
            var l' := Ledgers.StepsLedger(Sample(), snap, Body(LABEL, snap), LabelInfo(), 0, Nil, LabelWorld(),
                                          LABEL, l);
            Ledgers.On(LabelWorld(), LABEL, l) && l'.displaced == []
  {
    var p, w, l := Sample(), LabelWorld(), Ledgers.Ledger([LabelHook()], [], [LabelHook()], [], []);
    SampleIsKeyed();
    LabelRuns(snap);
    LabelIsSane(l);
    LabelOwns(snap);
    hide Ledgers.Sane, Ledgers.On, Attachments.Instances, Accounts.Owns, Exec, Ledgers.StepsLedger;
    Accounts.RerunKeepsIff(p, snap, LabelInfo(), Nil, w, l);
  }
}

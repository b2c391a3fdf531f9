/** The stand-alone slot table: groups and their slot words in two gap buffers whose gaps
    move in lockstep. */
module DualTables {
  import opened Basics

  type Word = int

  /** A group record as stored: slotIndex is the physical index of its first word. */
  datatype Rec = Rec(key: nat, data: Word, parent: Option<nat>, slotIndex: int, slotCount: nat,
                     size: nat, nodes: nat, inv: bool, cinv: bool)

  /** A group as the table's user sees it, with its slot words. */
  datatype Entry = Entry(key: nat, data: Word, parent: Option<nat>, words: seq<Word>,
                         size: nat, nodes: nat, inv: bool, cinv: bool)

  const WRAP := 0x1_0000      // counts and sizes are 16 bits wide
  const ZERO: Word := 0
  const BLANK := Rec(0, 0, Some(0), 0, 0, 0, 0, false, false)

  /** How many words the groups before index i hold. */
  function Start(es: seq<Entry>, i: nat): nat
    requires i <= |es|
  {
    if i == 0 then 0 else Start(es, i - 1) + |es[i - 1].words|
  }

  /** The words of the groups before index i, in order. */
  function Words(es: seq<Entry>, i: nat): (r: seq<Word>)
    requires i <= |es|
    ensures |r| == Start(es, i)
  {
    if i == 0 then [] else Words(es, i - 1) + es[i - 1].words
  }

  function Record(e: Entry, slotIndex: int): Rec {
    Rec(e.key, e.data, e.parent, slotIndex, |e.words|, e.size, e.nodes, e.inv, e.cinv)
  }

  /** One more word of a group is counted, modulo the width of the counter. */
  function Counted(r: Rec): Rec {
    r.(slotCount := (r.slotCount + 1) % WRAP)
  }

  /** Physical index of the first word of group i when the gaps lie before group gap. */
  function SlotIndex(es: seq<Entry>, gap: nat, gapLen: nat, i: nat): nat
    requires i <= |es|
  {
    Start(es, i) + if i < gap then 0 else gapLen
  }

  lemma {:induction false} StartGrows(es: seq<Entry>, i: nat, j: nat)
    requires i <= j <= |es|
    ensures Start(es, i) <= Start(es, j)
    ensures i < j ==> Start(es, i) + |es[i].words| <= Start(es, j)
    decreases j - i
  {
    if i < j {
      StartGrows(es, i, j - 1);
    }
  }

  predicate Wordless(es: seq<Entry>, lo: nat, hi: nat)
    requires hi <= |es|
  {
    forall j :: lo <= j < hi ==> es[j].words == []
  }

  lemma {:induction false} WordlessStart(es: seq<Entry>, i: nat, j: nat)
    requires i <= j <= |es|
    ensures Start(es, i) == Start(es, j) <==> Wordless(es, i, j)
    decreases j - i
  {
    if i < j {
      StartGrows(es, i, j - 1);
      WordlessStart(es, i, j - 1);
    }
  }

  lemma {:induction false} WordsPrefix(es: seq<Entry>, i: nat, j: nat)
    requires i <= j <= |es|
    ensures Start(es, i) <= Start(es, j) && Words(es, j)[..Start(es, i)] == Words(es, i)
    decreases j - i
  {
    StartGrows(es, i, j);
    if i < j {
      WordsPrefix(es, i, j - 1);
    } else {
      assert Words(es, j)[..Start(es, i)] == Words(es, i);
    }
  }

  /** The words of group i lie at its start in the words of the whole table. */
  lemma {:induction false} WordsOf(es: seq<Entry>, i: nat, j: nat)
    requires i < j <= |es|
    ensures Start(es, i) + |es[i].words| <= Start(es, j)
    ensures Words(es, j)[Start(es, i)..Start(es, i) + |es[i].words|] == es[i].words
  {
    var lo, hi, all := Start(es, i), Start(es, i + 1), Words(es, j);
    WordsPrefix(es, i + 1, j);
    assert all[lo..hi] == all[..hi][lo..];
    assert (Words(es, i) + es[i].words)[lo..] == es[i].words;
  }

  // ------------------------------------------------------------------ edits of the group list

  /** A group without words moves no other group's words. */
  lemma {:induction false} StartInserted(es: seq<Entry>, at: nat, e: Entry, i: nat)
    requires at <= |es| && e.words == [] && i <= |es| + 1
    ensures Start(InsertedAt(es, at, e), i) == Start(es, if i <= at then i else i - 1)
    ensures Words(InsertedAt(es, at, e), i) == Words(es, if i <= at then i else i - 1)
    decreases i
  {
    if i > 0 {
      StartInserted(es, at, e, i - 1);
    }
  }

  /** Words and starts depend on the words only. */
  lemma {:induction false} StartSame(es: seq<Entry>, fs: seq<Entry>, i: nat)
    requires |fs| == |es| && i <= |es| && forall k {:trigger es[k]} :: 0 <= k < |es| ==> fs[k].words == es[k].words
    ensures Start(fs, i) == Start(es, i) && Words(fs, i) == Words(es, i)
    decreases i
  {
    if i > 0 {
      StartSame(es, fs, i - 1);
      assert es[i - 1].words == fs[i - 1].words;
    }
  }

  /** es with v added to the words of group cur. */
  function Extended(es: seq<Entry>, cur: nat, v: Word): (r: seq<Entry>)
    requires cur < |es|
    ensures |r| == |es|
  {
    es[cur := es[cur].(words := es[cur].words + [v])]
  }

  lemma {:induction false} StartExtended(es: seq<Entry>, cur: nat, v: Word, i: nat)
    requires cur < |es| && i <= |es|
    ensures Start(Extended(es, cur, v), i) == Start(es, i) + if i <= cur then 0 else 1
    decreases i
  {
    if i > 0 {
      StartExtended(es, cur, v, i - 1);
    }
  }

  lemma {:induction false} WordsExtended(es: seq<Entry>, cur: nat, v: Word, i: nat)
    requires cur < i <= |es|
    ensures Start(es, cur + 1) <= Start(es, i)
    ensures Words(Extended(es, cur, v), i) == InsertedAt(Words(es, i), Start(es, cur + 1), v)
    decreases i
  {
    StartGrows(es, cur + 1, i);
    if i == cur + 1 {
      WordsBefore(es, cur, v, cur);
      assert Words(es, cur) + (es[cur].words + [v]) == Words(es, i) + [v];
      InsertedLast(Words(es, i), v);
    } else {
      StartGrows(es, cur + 1, i - 1);
      WordsExtended(es, cur, v, i - 1);
      InsertedAppend(Words(es, i - 1), es[i - 1].words, Start(es, cur + 1), v);
    }
  }

  lemma {:induction false} InsertedLast<T>(s: seq<T>, x: T)
    ensures InsertedAt(s, |s|, x) == s + [x]
  {}

  lemma {:induction false} InsertedAppend<T>(s: seq<T>, t: seq<T>, at: nat, x: T)
    requires at <= |s|
    ensures InsertedAt(s + t, at, x) == InsertedAt(s, at, x) + t
  {}

  lemma {:induction false} WordsBefore(es: seq<Entry>, cur: nat, v: Word, i: nat)
    requires i <= cur < |es|
    ensures Words(Extended(es, cur, v), i) == Words(es, i)
    decreases i
  {
    if i > 0 {
      WordsBefore(es, cur, v, i - 1);
    }
  }

  // ------------------------------------------------------------------ gap buffers

  /** The array a holds view, with len spare places before view[gap]. */
  ghost predicate Gapped<T>(a: seq<T>, gap: nat, len: nat, view: seq<T>) {
    && gap <= |view| && |a| == |view| + len
    && (forall i {:trigger a[i]} :: 0 <= i < gap ==> a[i] == view[i])
    && (forall i {:trigger a[i]} :: gap + len <= i < |a| ==> a[i] == view[i - len])
  }

  /** r is s with n elements copied from index src to index dst and then cleared at src. */
  ghost predicate Moved<T>(s: seq<T>, src: nat, dst: nat, n: nat, zero: T, r: seq<T>) {
    && |r| == |s| && src + n <= |s| && dst + n <= |s|
    && forall j {:trigger r[j]} :: 0 <= j < |r| ==>
         r[j] == if src <= j < src + n then zero else if dst <= j < dst + n then s[src + (j - dst)] else s[j]
  }

  /** A move keeps what it moves if and only if the two ranges do not overlap, or only blank
      elements come to lie where the move clears. */
  lemma {:induction false} MoveKeepsIff<T>(s: seq<T>, src: nat, dst: nat, n: nat, zero: T, r: seq<T>)
    requires Moved(s, src, dst, n, zero, r)
    ensures r[dst..dst + n] == s[src..src + n] <==>
            (forall j {:trigger s[j]} :: src <= j < src + n && src <= dst + (j - src) < src + n ==> s[j] == zero)
    ensures src + n <= dst || dst + n <= src ==> r[dst..dst + n] == s[src..src + n]
  {
    var was, now := s[src..src + n], r[dst..dst + n];
    forall k {:trigger now[k]} | 0 <= k < n ensures now[k] == if src <= dst + k < src + n then zero else was[k] {
      assert now[k] == r[dst + k];
    }
    if forall j {:trigger s[j]} :: src <= j < src + n && src <= dst + (j - src) < src + n ==> s[j] == zero {
      forall k | 0 <= k < n ensures now[k] == was[k] { assert was[k] == s[src + k]; }
    }
    if now == was {
      forall j {:trigger s[j]} | src <= j < src + n && src <= dst + (j - src) < src + n ensures s[j] == zero {
        assert s[j] == was[j - src] == now[j - src];
      }
    }
  }

  /** The elements lo..hi moved up by len places. */
  ghost predicate Raised<T>(s: seq<T>, lo: nat, hi: nat, len: nat, zero: T, r: seq<T>) {
    lo <= hi && Moved(s, lo, lo + len, hi - lo, zero, r)
  }

  /** The elements lo + len..hi + len moved down by len places. */
  ghost predicate Lowered<T>(s: seq<T>, lo: nat, hi: nat, len: nat, zero: T, r: seq<T>) {
    lo <= hi && Moved(s, lo + len, lo, hi - lo, zero, r)
  }

  /** What moves up survives if and only if the elements that come to lie where the move
      clears are blank; there are none when the elements fit into the gap. */
  lemma {:induction false} RaisedKeepsIff<T>(s: seq<T>, lo: nat, hi: nat, len: nat, zero: T, r: seq<T>)
    requires Raised(s, lo, hi, len, zero, r)
    ensures r[lo + len..hi + len] == s[lo..hi] <==> (forall j {:trigger s[j]} :: lo <= j < hi - len ==> s[j] == zero)
  {
    MoveKeepsIff(s, lo, lo + len, hi - lo, zero, r);
    assert lo + len + (hi - lo) == hi + len;
  }

  lemma {:induction false} LoweredKeepsIff<T>(s: seq<T>, lo: nat, hi: nat, len: nat, zero: T, r: seq<T>)
    requires Lowered(s, lo, hi, len, zero, r)
    ensures r[lo..hi] == s[lo + len..hi + len]
            <==> (forall j {:trigger s[j]} :: lo + len + len <= j < hi + len ==> s[j] == zero)
  {
    MoveKeepsIff(s, lo + len, lo, hi - lo, zero, r);
    assert lo + len + (hi - lo) == hi + len;
  }

  /** The elements lo..hi of view are blank. */
  ghost predicate Blanks<T>(view: seq<T>, lo: int, hi: int, zero: T) {
    forall i {:trigger view[i]} :: 0 <= lo <= i < hi <= |view| ==> view[i] == zero
  }

  /** Moving a gap to the left keeps the view if and only if the elements that come to lie where
      the move clears are blank; there are none when the move is no longer than the gap. */
  lemma {:induction false} GapMovesLeft<T>(a: seq<T>, gap: nat, len: nat, view: seq<T>, to: nat, zero: T, r: seq<T>)
    requires Gapped(a, gap, len, view) && to <= gap && Raised(a, to, gap, len, zero, r)
    ensures Gapped(r, to, len, view) <==> Blanks(view, to, gap - len, zero)
  {
    if Blanks(view, to, gap - len, zero) {
      forall i {:trigger r[i]} | 0 <= i < to ensures r[i] == view[i] { assert a[i] == view[i]; }
      forall i {:trigger r[i]} | to + len <= i < |r| ensures r[i] == view[i - len] {
        if i < gap + len { assert a[to + (i - (to + len))] == view[i - len]; } else { assert a[i] == view[i - len]; }
      }
    }
    if Gapped(r, to, len, view) {
      forall i {:trigger view[i]} | to <= i < gap - len ensures view[i] == zero { assert r[i + len] == zero; }
    }
  }

  lemma {:induction false} GapMovesRight<T>(a: seq<T>, gap: nat, len: nat, view: seq<T>, to: nat, zero: T, r: seq<T>)
    requires Gapped(a, gap, len, view) && gap <= to <= |view| && Lowered(a, gap, to, len, zero, r)
    ensures Gapped(r, to, len, view) <==> Blanks(view, gap + len, to, zero)
  {
    if Blanks(view, gap + len, to, zero) {
      forall i {:trigger r[i]} | 0 <= i < to ensures r[i] == view[i] {
        if gap <= i { assert a[gap + len + (i - gap)] == view[i]; } else { assert a[i] == view[i]; }
      }
      forall i {:trigger r[i]} | to + len <= i < |r| ensures r[i] == view[i - len] { assert a[i] == view[i - len]; }
    }
    if Gapped(r, to, len, view) {
      forall i {:trigger view[i]} | gap + len <= i < to ensures view[i] == zero { assert r[i] == zero; }
    }
  }

  // ------------------------------------------------------------------ the table

  /** The array a holds the records of es, with len spare places before group gap; the groups
      behind it have their words slen places further. */
  ghost predicate Laid(a: seq<Rec>, gap: nat, len: nat, es: seq<Entry>, slen: nat) {
    && gap <= |es| && |a| == |es| + len
    && (forall i {:trigger a[i]} :: 0 <= i < gap ==> a[i] == Record(es[i], Start(es, i)))
    && (forall i {:trigger a[i]} :: gap + len <= i < |a| ==> a[i] == Record(es[i - len], Start(es, i - len) + slen))
  }

  /** a with the records lo..hi pointing delta words further. */
  function Readdressed(a: seq<Rec>, lo: nat, hi: nat, delta: int): (r: seq<Rec>)
    ensures |r| == |a|
  {
    seq(|a|, j requires 0 <= j < |a| => if lo <= j < hi then a[j].(slotIndex := a[j].slotIndex + delta) else a[j])
  }

  ghost predicate Copied(s: seq<Rec>, src: nat, dst: nat, n: nat, r: seq<Rec>) {
    && |r| == |s| && src + n <= |s| && dst + n <= |s|
    && forall j {:trigger r[j]} :: 0 <= j < |r| ==> r[j] == if dst <= j < dst + n then s[src + (j - dst)] else s[j]
  }

  lemma {:induction false} ShiftedMoved(s0: seq<Rec>, s1: seq<Rec>, r: seq<Rec>, src: nat, dst: nat, n: nat, delta: int)
    requires Copied(s0, src, dst, n, s1)
    requires |r| == |s0| && forall j {:trigger r[j]} :: 0 <= j < |r| ==>
               r[j] == if src <= j < src + n then BLANK else Readdressed(s1, dst, dst + n, delta)[j]
    ensures Moved(Readdressed(s0, src, src + n, delta), src, dst, n, BLANK, r)
  {
    forall j {:trigger r[j]} | 0 <= j < |r|
      ensures r[j] == if src <= j < src + n then BLANK
                      else if dst <= j < dst + n then Readdressed(s0, src, src + n, delta)[src + (j - dst)]
                      else Readdressed(s0, src, src + n, delta)[j]
    {
      assert s1[j] == if dst <= j < dst + n then s0[src + (j - dst)] else s0[j];
    }
  }

  /** a with the records lo + len..hi + len pointing slen words back. */
  function Returned(a: seq<Rec>, lo: nat, hi: nat, len: nat, slen: nat): seq<Rec> {
    Readdressed(a, lo + len, hi + len, -(slen as int))
  }

  lemma {:induction false} RightShift(a: seq<Rec>, gap: nat, target: nat, len: nat, slen: nat, from: nat, n: nat,
                                      r: seq<Rec>)
    requires gap <= target && from == gap + len && n == target - gap
    requires Moved(Readdressed(a, from, from + n, -(slen as int)), from, gap, n, BLANK, r)
    ensures Lowered(Returned(a, gap, target, len, slen), gap, target, len, BLANK, r)
  {
    assert from + n == target + len;
  }

  class SlotTable {
    const groups: array<Rec>
    const slots: array<Word>
    var groupGap: nat
    var groupGapLen: nat
    var slotGap: nat
    var slotGapLen: nat

    /** The groups with their words, without the gaps. */
    ghost var entries: seq<Entry>

    ghost predicate Valid()
      reads this, groups, slots
    {
      && Laid(groups[..], groupGap, groupGapLen, entries, slotGapLen)
      && Gapped(slots[..], slotGap, slotGapLen, Words(entries, |entries|))
      && slotGap == Start(entries, groupGap)
    }

    constructor (maxGroups: nat, maxSlots: nat)
      ensures Valid() && fresh(groups) && fresh(slots) && entries == []
      ensures groupGapLen == groups.Length == maxGroups && slotGapLen == slots.Length == maxSlots
    {
      groups := new Rec[maxGroups](_ => BLANK);
      slots := new Word[maxSlots](_ => 0);
      groupGap, groupGapLen, slotGap, slotGapLen := 0, maxGroups, 0, maxSlots;
      entries := [];
    }

    function Count(): nat
      requires Valid()
      reads this, groups, slots
    {
      groups.Length - groupGapLen
    }

    function Physical(logical: nat): nat
      reads this
    {
      if logical < groupGap then logical else logical + groupGapLen
    }

    lemma {:induction false} Stored(i: nat)
      requires Valid() && i < |entries|
      ensures Physical(i) < groups.Length
      ensures groups[Physical(i)] == Record(entries[i], SlotIndex(entries, groupGap, slotGapLen, i))
    {
      assert groups[..][Physical(i)] == groups[Physical(i)];
    }

    /** A group's words are found from its slot index, wherever the gap is. */
    lemma {:induction false} WordStored(i: nat, k: nat)
      requires Valid() && i < |entries| && k < |entries[i].words|
      ensures SlotIndex(entries, groupGap, slotGapLen, i) + k < slots.Length
      ensures slots[SlotIndex(entries, groupGap, slotGapLen, i) + k] == entries[i].words[k]
    {
      var n, lo := |entries|, Start(entries, i);
      WordsOf(entries, i, n);
      if i < groupGap { StartGrows(entries, i, groupGap); } else { StartGrows(entries, groupGap, i); }
      WordAt(slots[..], slotGap, slotGapLen, Words(entries, n), lo, |entries[i].words|, k);
    }

    /** The record at a logical index. */
    method Get(logical: nat) returns (r: Option<Rec>)
      requires Valid()
      ensures r == if logical < |entries|
              then Some(Record(entries[logical], SlotIndex(entries, groupGap, slotGapLen, logical))) else None
    {
      if logical >= Count() {
        return None;
      }
      Stored(logical);
      return Some(groups[Physical(logical)]);
    }

    /** Copies n words from src to dst and clears the source. */
    method ShiftSlots(src: nat, dst: nat, n: nat)
      requires src + n <= slots.Length && dst + n <= slots.Length
      modifies slots
      ensures Moved(old(slots[..]), src, dst, n, ZERO, slots[..])
    {
      forall k | 0 <= k < n {
        slots[dst + k] := slots[src + k];
      }
      forall k | 0 <= k < n {
        slots[src + k] := ZERO;
      }
    }

    /** Lets n records point delta words further. */
    method Readdress(lo: nat, n: nat, delta: int)
      requires lo + n <= groups.Length
      modifies groups
      ensures groups[..] == Readdressed(old(groups[..]), lo, lo + n, delta)
    {
      var i := 0;
      while i < n
        invariant 0 <= i <= n
        invariant forall j {:trigger groups[j]} :: 0 <= j < groups.Length ==>
                    groups[j] == if lo <= j < lo + i then old(groups[j]).(slotIndex := old(groups[j]).slotIndex + delta)
                        else old(groups[j])
      {
        groups[lo + i] := groups[lo + i].(slotIndex := groups[lo + i].slotIndex + delta);
        i := i + 1;
      }
    }

    /** Copies n records from src to dst, lets them point delta words further, and clears the
        source. */
    method ShiftGroups(src: nat, dst: nat, n: nat, delta: int)
      requires src + n <= groups.Length && dst + n <= groups.Length
      modifies groups
      ensures Moved(Readdressed(old(groups[..]), src, src + n, delta), src, dst, n, BLANK, groups[..])
    {
      ghost var s0 := groups[..];
      CopyGroups(src, dst, n);
      ghost var s1 := groups[..];
      Readdress(dst, n, delta);
      forall k | 0 <= k < n {
        groups[src + k] := BLANK;
      }
      ShiftedMoved(s0, s1, groups[..], src, dst, n, delta);
    }

    /** Copies n records from src to dst. */
    method CopyGroups(src: nat, dst: nat, n: nat)
      requires src + n <= groups.Length && dst + n <= groups.Length
      modifies groups
      ensures Copied(old(groups[..]), src, dst, n, groups[..])
    {
      forall k | 0 <= k < n {
        groups[dst + k] := groups[src + k];
      }
    }

    // ---------------------------------------------------------------- writing at the gap

    /** Puts a new group at the gap. */
    method OpenGroup(key: nat, data: Word, parent: Option<nat>)
      requires Valid() && groupGapLen > 0
      modifies this`groupGap, this`groupGapLen, this`entries, groups
      ensures Valid() && groupGap == old(groupGap) + 1 && groupGapLen == old(groupGapLen) - 1
      ensures entries == InsertedAt(old(entries), old(groupGap), Entry(key, data, parent, [], 0, 0, false, false))
    {
      ghost var e := Entry(key, data, parent, [], 0, 0, false, false);
      ghost var a, gap', len' := groups[..], groupGap + 1, groupGapLen - 1;
      ghost var r := Record(e, Start(entries, groupGap));
      assert groupGap < groups.Length && groupGap <= |entries|;
      hide Start, Words, Laid, Gapped;
      groups[groupGap] := Rec(key, data, parent, slotGap, 0, 0, 0, false, false);
      assert groups[..] == a[groupGap := r];
      InsertKeeps(entries, groupGap, groupGapLen, slotGapLen, a, e, r, gap', len', groups[..]);
      entries := InsertedAt(entries, groupGap, e);
      groupGap, groupGapLen := groupGap + 1, groupGapLen - 1;
    }

    /** Puts a word at the gap of words and counts it for group cur.  When that is the group in front of
        the gap of groups, the word is added to its words. */
    method AppendWord(cur: nat, v: Word)
      requires Valid() && cur < groupGap && slotGapLen > 0
      modifies this`slotGap, this`slotGapLen, this`entries, groups, slots
      ensures slotGap == old(slotGap) + 1 && slotGapLen == old(slotGapLen) - 1
      ensures old(slotGap) < slots.Length && slots[..] == old(slots[..])[old(slotGap) := v]
      ensures cur < groups.Length && groups[..] == old(groups[..])[cur := Counted(old(groups[cur]))]
      ensures cur == groupGap - 1 && |old(entries)[cur].words| + 1 < WRAP ==>
              Valid() && entries == Extended(old(entries), cur, v)
    {
      hide Words;
      ghost var a, w := groups[..], slots[..];
      slots[slotGap] := v;
      groups[cur] := groups[cur].(slotCount := (groups[cur].slotCount + 1) % WRAP);
      assert groups[..] == a[cur := Counted(a[cur])] && slots[..] == w[slotGap := v];
      ghost var sgap', slen' := slotGap + 1, slotGapLen - 1;
      if cur == groupGap - 1 && |entries[cur].words| + 1 < WRAP {
        ExtendKeeps(entries, groupGap, groupGapLen, slotGapLen, a, cur, v, slen', groups[..]);
        ExtendWords(entries, slotGap, slotGapLen, w, cur, v, sgap', slen', slots[..]);
        entries := Extended(entries, cur, v);
      }
      slotGap, slotGapLen := slotGap + 1, slotGapLen - 1;
    }

    /** Where a reader looks for the next word of group i: at the gap of words if and only if no group
        between it and the gap of groups has words. */
    lemma {:induction false} NextWord(i: nat)
      requires Valid() && i < groupGap
      ensures i < groups.Length && groups[i].slotIndex + groups[i].slotCount == Start(entries, i + 1) <= slotGap
      ensures Start(entries, i + 1) == slotGap <==> Wordless(entries, i + 1, groupGap)
    {
      Stored(i);
      StartGrows(entries, i + 1, groupGap);
      WordlessStart(entries, i + 1, groupGap);
    }

    /** Rewrites the record of group i, which sits at physical index at, without touching its
        words. */
    method SetPhysical(at: nat, g: Rec, ghost i: nat)
      requires Valid() && i < |entries| && at == Physical(i)
      requires g.slotIndex == SlotIndex(entries, groupGap, slotGapLen, i) && g.slotCount == |entries[i].words|
      modifies this`entries, groups
      ensures Valid()
      ensures entries == old(entries)[i := Entry(g.key, g.data, g.parent, old(entries)[i].words, g.size, g.nodes,
              g.inv, g.cinv)]
    {
      ghost var e := Entry(g.key, g.data, g.parent, entries[i].words, g.size, g.nodes, g.inv, g.cinv);
      ghost var a := groups[..];
      Stored(i);
      groups[at] := g;
      SetKeeps(entries, groupGap, groupGapLen, slotGapLen, a, i, e, at, groups[..]);
      entries := entries[i := e];
    }

    /** Rewrites the record at a logical index. */
    method SetEntry(i: nat, g: Rec)
      requires Valid() && i < |entries|
      requires g.slotIndex == SlotIndex(entries, groupGap, slotGapLen, i) && g.slotCount == |entries[i].words|
      modifies this`entries, groups
      ensures Valid()
      ensures entries == old(entries)[i := Entry(g.key, g.data, g.parent, old(entries)[i].words, g.size, g.nodes,
              g.inv, g.cinv)]
    {
      SetPhysical(Physical(i), g, i);
    }

    // ---------------------------------------------------------------- moving the gaps

    /** How many words the n records from physical index at on hold. */
    method CountSlots(at: nat, n: nat, ghost es: seq<Entry>, ghost lo: nat) returns (count: nat)
      requires at + n <= groups.Length && lo + n <= |es|
      requires forall j {:trigger groups[j]} :: at <= j < at + n ==> groups[j].slotCount == |es[lo + (j - at)].words|
      ensures Start(es, lo) + count == Start(es, lo + n)
    {
      count := 0;
      var i := 0;
      while i < n
        invariant 0 <= i <= n && Start(es, lo) + count == Start(es, lo + i)
      {
        assert groups[at + i].slotCount == |es[lo + (at + i - at)].words|;
        count := count + groups[at + i].slotCount;
        i := i + 1;
      }
    }

    /** The gap has room for the groups between target and the gap, and the words that the move
        overwrites and clears are zero; there are none when the words fit into their gap. */
    ghost predicate Fits(target: nat)
      requires Valid() && target <= |entries|
      reads this, groups, slots
    {
      var words := Words(entries, |entries|);
      if target <= groupGap then
        groupGap - target <= groupGapLen && Blanks(words, Start(entries, target), slotGap - slotGapLen, ZERO)
      else
        target - groupGap <= groupGapLen && Blanks(words, slotGap + slotGapLen, Start(entries, target), ZERO)
    }

    /** Moves both gaps to the left, over the groups from target on and their words. */
    method MoveGapLeft(target: nat) returns (first: nat)
      requires target < groupGap && groupGap + groupGapLen <= groups.Length
      requires 0 <= groups[target].slotIndex <= slotGap && slotGap + slotGapLen <= slots.Length
      modifies this`groupGap, this`slotGap, groups, slots
      ensures groupGap == target && slotGap == first == old(groups[target].slotIndex)
      ensures Raised(Readdressed(old(groups[..]), target, old(groupGap), slotGapLen), target, old(groupGap),
              groupGapLen, BLANK, groups[..])
      ensures Raised(old(slots[..]), first, old(slotGap), slotGapLen, ZERO, slots[..])
    {
      first := groups[target].slotIndex;
      ShiftGroups(target, target + groupGapLen, groupGap - target, slotGapLen);
      ShiftSlots(first, first + slotGapLen, slotGap - first);
      groupGap, slotGap := target, first;
    }

    /** Moves both gaps to the right, over the groups before target and their words. */
    method MoveGapRight(target: nat, ghost es: seq<Entry>)
      requires groupGap < target <= |es| && target + groupGapLen <= groups.Length
      requires Start(es, groupGap) == slotGap <= Start(es, target) && Start(es, target) + slotGapLen <= slots.Length
      requires forall j {:trigger groups[j]} :: groupGap + groupGapLen <= j < target + groupGapLen ==>
                 groups[j].slotCount == |es[j - groupGapLen].words|
      modifies this`groupGap, this`slotGap, groups, slots
      ensures groupGap == target && slotGap == Start(es, target)
      ensures Lowered(Returned(old(groups[..]), old(groupGap), target, groupGapLen, slotGapLen), old(groupGap), target,
              groupGapLen, BLANK, groups[..])
      ensures Lowered(old(slots[..]), old(slotGap), slotGap, slotGapLen, ZERO, slots[..])
    {
      ghost var a, w := groups[..], slots[..];
      var n, from := target - groupGap, groupGap + groupGapLen;
      var words := CountSlots(from, n, es, groupGap);
      ShiftGroups(from, groupGap, n, -(slotGapLen as int));
      RightShift(a, groupGap, target, groupGapLen, slotGapLen, from, n, groups[..]);
      var sfrom, sto := slotGap + slotGapLen, slotGap + words;
      ShiftSlots(sfrom, slotGap, words);
      assert Lowered(w, slotGap, sto, slotGapLen, ZERO, slots[..]);
      groupGap, slotGap := target, sto;
    }

    lemma {:induction false} LeftReady(target: nat)
      requires Valid() && target < groupGap
      ensures groupGap + groupGapLen <= groups.Length && groups[target].slotIndex == Start(entries, target)
      ensures Start(entries, target) <= slotGap <= Start(entries, |entries|) && slotGap + slotGapLen <= slots.Length
    {
      StartGrows(entries, target, groupGap);
      StartGrows(entries, groupGap, |entries|);
      Stored(target);
    }

    lemma {:induction false} RightReady(target: nat)
      requires Valid() && groupGap < target <= |entries|
      ensures target + groupGapLen <= groups.Length && Start(entries, target) + slotGapLen <= slots.Length
      ensures slotGap <= Start(entries, target) <= Start(entries, |entries|)
    {
      StartGrows(entries, groupGap, target);
      StartGrows(entries, target, |entries|);
    }

    lemma {:induction false} CountsBehind()
      requires Valid()
      ensures forall j {:trigger groups[j]} :: groupGap + groupGapLen <= j < groups.Length ==>
                groups[j].slotCount == |entries[j - groupGapLen].words|
    {
      forall j {:trigger groups[j]} | groupGap + groupGapLen <= j < groups.Length
        ensures groups[j].slotCount == |entries[j - groupGapLen].words|
      {
        Stored(j - groupGapLen);
      }
    }

    /** What a move to the left does to the arrays, whether or not there is room. */
    ghost predicate LeftMoved(a: seq<Rec>, w: seq<Word>, gap: nat, sgap: nat)
      reads this, groups, slots
    {
      && Raised(Readdressed(a, groupGap, gap, slotGapLen), groupGap, gap, groupGapLen, BLANK, groups[..])
      && Raised(w, slotGap, sgap, slotGapLen, ZERO, slots[..])
    }

    /** What a move to the right does to the arrays, whether or not there is room. */
    ghost predicate RightMoved(a: seq<Rec>, w: seq<Word>, gap: nat, sgap: nat)
      reads this, groups, slots
    {
      && Lowered(Returned(a, gap, groupGap, groupGapLen, slotGapLen), gap, groupGap, groupGapLen, BLANK, groups[..])
      && Lowered(w, sgap, slotGap, slotGapLen, ZERO, slots[..])
    }

    method SlideLeft(target: nat)
      requires Valid() && target < groupGap
      modifies this`groupGap, this`slotGap, groups, slots
      ensures LeftMoved(old(groups[..]), old(slots[..]), old(groupGap), old(slotGap)) && groupGap == target
      ensures old(Fits(target)) ==> Valid()
      ensures Keyed(entries) && Valid() ==> old(Fits(target))
    {
      ghost var a, w, gap, sgap := groups[..], slots[..], groupGap, slotGap;
      LeftReady(target);
      var first := MoveGapLeft(target);
      GapMovesLeft(w, sgap, slotGapLen, Words(entries, |entries|), first, ZERO, slots[..]);
      if gap - target <= groupGapLen {
        LeftKeeps(entries, gap, groupGapLen, slotGapLen, a, target, groups[..]);
      } else if Keyed(entries) {
        LeftLoses(entries, gap, groupGapLen, slotGapLen, a, target, groups[..]);
      }
    }

    method SlideRight(target: nat)
      requires Valid() && groupGap < target <= |entries|
      modifies this`groupGap, this`slotGap, groups, slots
      ensures RightMoved(old(groups[..]), old(slots[..]), old(groupGap), old(slotGap)) && groupGap == target
      ensures old(Fits(target)) ==> Valid()
      ensures Keyed(entries) && Valid() ==> old(Fits(target))
    {
      ghost var a, w, gap, sgap := groups[..], slots[..], groupGap, slotGap;
      RightReady(target);
      CountsBehind();
      MoveGapRight(target, entries);
      GapMovesRight(w, sgap, slotGapLen, Words(entries, |entries|), slotGap, ZERO, slots[..]);
      if target - gap <= groupGapLen {
        RightKeeps(entries, gap, groupGapLen, slotGapLen, a, target, groups[..]);
      } else if Keyed(entries) {
        RightLoses(entries, gap, groupGapLen, slotGapLen, a, target, groups[..]);
      }
    }

    /** Moves both gaps in front of group target.  Every group keeps its place and its words when
        the move fits; a table whose groups have keys keeps them only then. */
    method MoveGapTo(target: nat) returns (ok: bool)
      requires Valid()
      modifies this`groupGap, this`slotGap, groups, slots
      ensures ok == (target <= |entries|)
      ensures !ok ==> Valid() && groupGap == old(groupGap)
      ensures ok ==> groupGap == target
      ensures ok && old(Fits(target)) ==> Valid()
      ensures ok && Keyed(entries) && Valid() ==> old(Fits(target))
      ensures target < old(groupGap) ==> LeftMoved(old(groups[..]), old(slots[..]), old(groupGap), old(slotGap))
      ensures ok && old(groupGap) < target ==> RightMoved(old(groups[..]), old(slots[..]), old(groupGap), old(slotGap))
    {
      if target > Count() {
        return false;
      }
      if target < groupGap {
        SlideLeft(target);
      } else if target > groupGap {
        SlideRight(target);
      }
      return true;
    }
  }

  lemma {:induction false} WordAt(w: seq<Word>, gap: nat, len: nat, view: seq<Word>, lo: nat, n: nat, k: nat)
    requires Gapped(w, gap, len, view) && k < n && lo + n <= |view| && (lo + n <= gap || gap <= lo)
    ensures var at := (if lo + n <= gap then lo else lo + len) + k;
            at < |w| && w[at] == view[lo..lo + n][k]
  {}

  // ------------------------------------------------------------------ writes keep the layout

  lemma {:induction false} InsertKeeps(es: seq<Entry>, gap: nat, len: nat, slen: nat, a: seq<Rec>, e: Entry, r: Rec,
                                       gap': nat, len': nat, a': seq<Rec>)
    requires 0 < len && gap' == gap + 1 && len' == len - 1 && e.words == []
    requires Laid(a, gap, len, es, slen) && r == Record(e, Start(es, gap)) && a' == a[gap := r]
    ensures var fs := InsertedAt(es, gap, e);
            && Laid(a', gap', len', fs, slen) && Words(fs, |fs|) == Words(es, |es|) && Start(fs, gap') == Start(es, gap)
  {
    hide Start, Words;
    var fs := InsertedAt(es, gap, e);
    StartInserted(es, gap, e, |fs|);
    StartInserted(es, gap, e, gap');
    forall i {:trigger a'[i]} | 0 <= i < gap' ensures a'[i] == Record(fs[i], Start(fs, i)) {
      StartInserted(es, gap, e, i);
      if i < gap { assert a'[i] == a[i]; }
    }
    forall i {:trigger a'[i]} | gap' + len' <= i < |a'|
        ensures a'[i] == Record(fs[i - len'], Start(fs, i - len') + slen) {
      var j := i - len;
      StartInserted(es, gap, e, j + 1);
      assert a'[i] == a[i] && i - len' == j + 1 && fs[j + 1] == es[j];
    }
  }

  lemma {:induction false} ExtendKeeps(es: seq<Entry>, gap: nat, len: nat, slen: nat, a: seq<Rec>, cur: nat, v: Word,
                                       slen': nat, a': seq<Rec>)
    requires gap == cur + 1 && 0 < slen && slen' == slen - 1
    requires Laid(a, gap, len, es, slen)
    requires a' == a[cur := a[cur].(slotCount := a[cur].slotCount + 1)]
    ensures var fs := Extended(es, cur, v); Laid(a', gap, len, fs, slen') && Start(fs, gap) == Start(es, gap) + 1
  {
    var fs := Extended(es, cur, v);
    StartExtended(es, cur, v, gap);
    forall i {:trigger a'[i]} | 0 <= i < gap ensures a'[i] == Record(fs[i], Start(fs, i)) {
      StartExtended(es, cur, v, i);
      assert a[i] == Record(es[i], Start(es, i));
    }
    forall i {:trigger a'[i]} | gap + len <= i < |a'| ensures a'[i] == Record(fs[i - len], Start(fs, i - len) + slen') {
      StartExtended(es, cur, v, i - len);
      assert a'[i] == a[i];
    }
  }

  lemma {:induction false} ExtendWords(es: seq<Entry>, sgap: nat, slen: nat, w: seq<Word>, cur: nat, v: Word,
                                       sgap': nat, slen': nat, w': seq<Word>)
    requires cur < |es| && 0 < slen && sgap' == sgap + 1 && slen' == slen - 1 && sgap == Start(es, cur + 1)
    requires Gapped(w, sgap, slen, Words(es, |es|)) && w' == w[sgap := v]
    ensures var fs := Extended(es, cur, v); Gapped(w', sgap', slen', Words(fs, |fs|))
  {
    WordsExtended(es, cur, v, |es|);
  }

  lemma {:induction false} SetKeeps(es: seq<Entry>, gap: nat, len: nat, slen: nat, a: seq<Rec>, k: nat, e: Entry,
                                    at: nat, a': seq<Rec>)
    requires k < |es| && e.words == es[k].words && at == (if k < gap then k else k + len)
    requires Laid(a, gap, len, es, slen) && a' == a[at := Record(e, SlotIndex(es, gap, slen, k))]
    ensures var fs := es[k := e];
            Laid(a', gap, len, fs, slen) && Words(fs, |fs|) == Words(es, |es|) && Start(fs, gap) == Start(es, gap)
  {
    hide Start, Words;
    var fs := es[k := e];
    StartSame(es, fs, |es|);
    StartSame(es, fs, gap);
    forall i {:trigger a'[i]} | 0 <= i < gap ensures a'[i] == Record(fs[i], Start(fs, i)) {
      StartSame(es, fs, i);
      if i != k { assert a'[i] == a[i]; }
    }
    forall i {:trigger a'[i]} | gap + len <= i < |a'| ensures a'[i] == Record(fs[i - len], Start(fs, i - len) + slen) {
      StartSame(es, fs, i - len);
      if i != at { assert a'[i] == a[i]; }
    }
  }

  // ------------------------------------------------------------------ moves keep the layout

  lemma {:induction false} LeftKeeps(es: seq<Entry>, gap: nat, len: nat, slen: nat, a: seq<Rec>, to: nat, a': seq<Rec>)
    requires to < gap && gap - to <= len && Laid(a, gap, len, es, slen)
    requires Raised(Readdressed(a, to, gap, slen), to, gap, len, BLANK, a')
    ensures Laid(a', to, len, es, slen)
  {
    var b := Readdressed(a, to, gap, slen);
    forall i {:trigger a'[i]} | 0 <= i < to ensures a'[i] == Record(es[i], Start(es, i)) {
      assert a'[i] == b[i] == a[i];
    }
    forall i {:trigger a'[i]} | to + len <= i < |a'| ensures a'[i] == Record(es[i - len], Start(es, i - len) + slen) {
      if i < gap + len {
        assert a'[i] == b[to + (i - (to + len))];
        assert b[i - len] == a[i - len].(slotIndex := a[i - len].slotIndex + slen);
      } else {
        assert a'[i] == b[i] == a[i];
      }
    }
  }

  /** Every group has a key. */
  predicate Keyed(es: seq<Entry>) {
    forall i {:trigger es[i]} :: 0 <= i < |es| ==> es[i].key != 0
  }

  /** A move longer than the gap wipes a group. */
  lemma {:induction false} LeftLoses(es: seq<Entry>, gap: nat, len: nat, slen: nat, a: seq<Rec>, to: nat, a': seq<Rec>)
    requires to < gap && gap - to > len && Laid(a, gap, len, es, slen) && Keyed(es)
    requires Raised(Readdressed(a, to, gap, slen), to, gap, len, BLANK, a')
    ensures !Laid(a', to, len, es, slen)
  {
    assert a'[to + len] == BLANK && es[to].key != 0;
  }

  lemma {:induction false} RightLoses(es: seq<Entry>, gap: nat, len: nat, slen: nat, a: seq<Rec>, to: nat, a': seq<Rec>)
    requires gap < to <= |es| && to - gap > len && Laid(a, gap, len, es, slen) && Keyed(es)
    requires Lowered(Returned(a, gap, to, len, slen), gap, to, len, BLANK, a')
    ensures !Laid(a', to, len, es, slen)
  {
    assert a'[to - 1] == BLANK && es[to - 1].key != 0;
  }

  /** In a table with one free record, moving the gap over two groups wipes the first. */
  method WipingMove() returns (t: SlotTable)
    ensures fresh(t) && t.entries == [Entry(1, 0, None, [], 0, 0, false, false),
            Entry(2, 0, None, [], 0, 0, false, false)]
    ensures t.groupGap == 0 && !t.Valid()
    ensures t.groups[..] == [BLANK, BLANK, Rec(2, 0, None, 0, 0, 0, 0, false, false)]
  {
    hide Gapped;
    t := new SlotTable(3, 0);
    t.OpenGroup(1, 0, None);
    t.OpenGroup(2, 0, None);
    var ok := t.MoveGapTo(0);
  }

  lemma {:induction false} RightKeeps(es: seq<Entry>, gap: nat, len: nat, slen: nat, a: seq<Rec>, to: nat, a': seq<Rec>)
    requires gap < to <= |es| && to - gap <= len && Laid(a, gap, len, es, slen)
    requires Lowered(Returned(a, gap, to, len, slen), gap, to, len, BLANK, a')
    ensures Laid(a', to, len, es, slen)
  {
    var b := Returned(a, gap, to, len, slen);
    forall i {:trigger a'[i]} | 0 <= i < to ensures a'[i] == Record(es[i], Start(es, i)) {
      if i < gap {
        assert a'[i] == b[i] == a[i];
      } else {
        assert a'[i] == b[gap + len + (i - gap)];
        assert b[i + len] == a[i + len].(slotIndex := a[i + len].slotIndex - slen);
      }
    }
    forall i {:trigger a'[i]} | to + len <= i < |a'| ensures a'[i] == Record(es[i - len], Start(es, i - len) + slen) {
      assert a'[i] == b[i] == a[i];
    }
  }

  /** Groups with a key are never blank: moving them keeps them if and only if they fit into
      the gap. */
  lemma {:induction false} KeyedGroupsFit(a: seq<Rec>, lo: nat, hi: nat, len: nat, delta: int, r: seq<Rec>)
    requires lo < hi && Raised(Readdressed(a, lo, hi, delta), lo, hi, len, BLANK, r)
    requires forall j {:trigger a[j]} :: lo <= j < hi ==> a[j].key != 0
    ensures r[lo + len..hi + len] == Readdressed(a, lo, hi, delta)[lo..hi] <==> hi - lo <= len
  {
    var b := Readdressed(a, lo, hi, delta);
    RaisedKeepsIff(b, lo, hi, len, BLANK, r);
    if hi - lo > len {
      assert b[lo].key == a[lo].key;
    }
  }

  lemma {:induction false} KeyedGroupsFitBack(a: seq<Rec>, lo: nat, hi: nat, len: nat, slen: nat, r: seq<Rec>)
    requires lo < hi && Lowered(Returned(a, lo, hi, len, slen), lo, hi, len, BLANK, r)
    requires forall j {:trigger a[j]} :: lo + len <= j < hi + len ==> a[j].key != 0
    ensures r[lo..hi] == Returned(a, lo, hi, len, slen)[lo + len..hi + len] <==> hi - lo <= len
  {
    var b := Returned(a, lo, hi, len, slen);
    LoweredKeepsIff(b, lo, hi, len, BLANK, r);
    if hi - lo > len {
      assert b[hi + len - 1].key == a[hi + len - 1].key;
    }
  }
}

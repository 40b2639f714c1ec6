/** All sections in output order: the program that the link and encode passes work on. */
module DasmFlat {
  import opened DasmLayout
  import opened DasmLabels
  import opened DasmWalk
  import opened DasmState

  /** Steps and worst-case bytes in front of section s. */
  ghost function Base(walk: seq<seq<Step>>, s: nat): nat
    requires s <= |walk|
  {
    if s == 0 then 0 else Base(walk, s - 1) + |walk[s - 1]|
  }

  function OfsBase(ofs: seq<int>, s: nat): int
    requires s <= |ofs|
  {
    if s == 0 then 0 else OfsBase(ofs, s - 1) + ofs[s - 1]
  }

  ghost function ItemAt(al: ActList, e: Enc, s: nat, m: nat): Item
    requires Sized(e) && s < |e.walk| && m < |e.walk[s]|
  {
    var it := e.walk[s][m];
    var pos := Pos(s, it.idx);
    Lift(al, it, OfsBase(e.ofs, s), pos, if Slots(al, it) == 0 then 0 else Slot(e.bufs, pos))
  }

  ghost function FlatSec(al: ActList, e: Enc, s: nat): (f: seq<Item>)
    requires Sized(e) && s < |e.walk|
    ensures |f| == |e.walk[s]|
  {
    seq(|e.walk[s]|, m requires 0 <= m < |e.walk[s]| => ItemAt(al, e, s, m))
  }

  ghost function Flat(al: ActList, e: Enc, s: nat): (f: seq<Item>)
    requires Sized(e) && s <= |e.walk|
    ensures |f| == Base(e.walk, s)
  {
    if s == 0 then [] else Flat(al, e, s - 1) + FlatSec(al, e, s - 1)
  }

  ghost function Program(al: ActList, e: Enc): seq<Item>
    requires Sized(e)
  {
    Flat(al, e, |e.walk|)
  }

  lemma {:induction false} FlatAt(al: ActList, e: Enc, n: nat, s: nat, m: nat)
    requires Sized(e) && s < n <= |e.walk| && m < |e.walk[s]|
    ensures Base(e.walk, s) + m < Base(e.walk, n)
    ensures Flat(al, e, n)[Base(e.walk, s) + m] == ItemAt(al, e, s, m)
    decreases n
  {
    if s < n - 1 {
      FlatAt(al, e, n - 1, s, m);
    }
  }

  /** Every index of the program belongs to a step of a section. */
  lemma {:induction false} Locate(walk: seq<seq<Step>>, n: nat, k: nat) returns (s: nat, m: nat)
    requires n <= |walk| && k < Base(walk, n)
    ensures s < n && m < |walk[s]| && k == Base(walk, s) + m
    decreases n
  {
    if k < Base(walk, n - 1) {
      s, m := Locate(walk, n - 1, k);
    } else {
      s, m := n - 1, k - Base(walk, n - 1);
    }
  }

  /** Order of the program is order of sections, then order within the section. */
  lemma {:induction false} BaseMonotone(walk: seq<seq<Step>>, i: nat, j: nat)
    requires i <= j <= |walk|
    ensures Base(walk, i) <= Base(walk, j)
    decreases j
  {
    if i < j {
      BaseMonotone(walk, i, j - 1);
    }
  }

  lemma Ordered(walk: seq<seq<Step>>, s: nat, m: nat, s': nat, m': nat)
    requires s < |walk| && m < |walk[s]| && s' < |walk| && m' < |walk[s']|
    ensures Base(walk, s) + m < Base(walk, s') + m' <==> s < s' || (s == s' && m < m')
  {
    if s < s' {
      BaseMonotone(walk, s + 1, s');
    } else if s' < s {
      BaseMonotone(walk, s' + 1, s);
    }
  }

  // ---------------------------------------------------------------- well-formedness

  lemma SectionParts(al: ActList, e: Enc, i: nat)
    requires SectionsOk(al, e, 0, -1) && i < |e.bufs|
    ensures SecOk(al, e.walk[i], e.bufs[i], e.ofs[i]) && |e.bufs[i]| <= BIAS
    ensures Walk(al, e.walk[i]) && EndOfs(e.walk[i], |e.walk[i]|) == e.ofs[i]
    ensures EndIdx(al, e.walk[i], |e.walk[i]|) <= BIAS
  {
    assert SectionOk(al, e, 0, -1, i);
  }

  lemma {:induction false} SectionStarts(al: ActList, e: Enc, n: nat, s: nat)
    requires SectionsOk(al, e, 0, -1) && s <= n <= |e.walk|
    ensures Base(e.walk, s) <= Base(e.walk, n)
    ensures At(Flat(al, e, n), Base(e.walk, s)) == OfsBase(e.ofs, s)
    decreases s
  {
    BaseMonotone(e.walk, s, n);
    if s > 0 {
      SectionStarts(al, e, n, s - 1);
      SectionParts(al, e, s - 1);
      var k := |e.walk[s - 1]|;
      if k > 0 {
        FlatAt(al, e, n, s - 1, k - 1);
      }
    }
  }

  /** The worst-case offsets add up over all sections. */
  lemma AddsUp(al: ActList, e: Enc, s: nat, m: nat)
    requires SectionsOk(al, e, 0, -1) && s < |e.walk| && m < |e.walk[s]|
    ensures var f, k := Program(al, e), Base(e.walk, s) + m;
            k < |f| && f[k].at == At(f, k) + f[k].Max() && f[k].Max() >= 0
            && At(f, k) == OfsBase(e.ofs, s) + EndOfs(e.walk[s], m)
  {
    hide SectionsOk, Program, Flat, SecOk, After, StartOk, Slots;
    SizedFact(al, e, 0, -1);
    ProgramRel(al, e, s, m);
    SectionParts(al, e, s);
    assert StepOk(al, e.walk[s], m);
    if m == 0 {
      ProgramStarts(al, e, s);
    } else {
      ProgramRel(al, e, s, m - 1);
    }
  }

  lemma ProgramStarts(al: ActList, e: Enc, s: nat)
    requires SectionsOk(al, e, 0, -1) && s <= |e.walk|
    ensures Base(e.walk, s) <= |Program(al, e)|
    ensures At(Program(al, e), Base(e.walk, s)) == OfsBase(e.ofs, s)
  {
    SectionStarts(al, e, |e.walk|, s);
  }

  lemma PosOrdered(al: ActList, e: Enc, s: nat, m: nat, s': nat, m': nat)
    requires SectionsOk(al, e, 0, -1)
    requires s < |e.walk| && m < |e.walk[s]| && s' < |e.walk| && m' < |e.walk[s']|
    requires s < s' || (s == s' && m < m')
    requires Slots(al, e.walk[s][m]) > 0
    ensures Pos(s, e.walk[s][m].idx) < Pos(s', e.walk[s'][m'].idx)
  {
    SectionParts(al, e, s);
    StepBelow(al, e.walk[s], m);
    if s == s' {
      IdxMonotone(al, e.walk[s], m, m');
    }
  }

  /** The step in front of an action is the action in front of it, if that is a literal. */
  lemma LiteralInFront(al: ActList, w: seq<Step>, m: nat)
    requires Walk(al, w) && m < |w| && !w[m].start && Act(al, w[m].p - 1).Literal()
    ensures m > 0 && !w[m - 1].start && w[m - 1].p == w[m].p - 1
  {
    assert StepOk(al, w, m);
    assert StepOk(al, w, m - 1);
  }

  lemma ProgramPlaced(al: ActList, e: Enc, s: nat, m: nat)
    requires ListOk(al) && SectionsOk(al, e, 0, -1) && s < |e.walk| && m < |e.walk[s]|
    ensures Base(e.walk, s) + m < |Program(al, e)| && Placed(Program(al, e), Base(e.walk, s) + m)
  {
    hide SectionsOk, Program, Flat, SecOk, StepOk;
    SizedFact(al, e, 0, -1);
    var w, it := e.walk[s], e.walk[s][m];
    var f, k := Program(al, e), Base(e.walk, s) + m;
    ProgramRel(al, e, s, m);
    SectionParts(al, e, s);
    StepAction(al, w, m);
    assert ActionOk(al, it.p);
    if f[k].Rel() || f[k].Short() {
      LiteralInFront(al, w, m);
      ProgramRel(al, e, s, m - 1);
      if f[k].Short() || f[k].Shrink() == 4 {
        LiteralInFront(al, w, m - 1);
        ProgramRel(al, e, s, m - 2);
      }
    }
  }

  lemma StepAction(al: ActList, w: seq<Step>, m: nat)
    requires Walk(al, w) && m < |w|
    ensures w[m].p < |al|
  {
    assert StepOk(al, w, m);
  }

  lemma FlatOrdered(al: ActList, e: Enc, j: nat, k: nat)
    requires SectionsOk(al, e, 0, -1) && j < k < |Program(al, e)|
    requires Program(al, e)[j].Label() || Program(al, e)[j].Rel()
    ensures Program(al, e)[j].pos < Program(al, e)[k].pos
  {
    var s, m := Locate(e.walk, |e.walk|, j);
    var s', m' := Locate(e.walk, |e.walk|, k);
    FlatAt(al, e, |e.walk|, s, m);
    FlatAt(al, e, |e.walk|, s', m');
    Ordered(e.walk, s, m, s', m');
    PosOrdered(al, e, s, m, s', m');
  }

  /** After the put pass the program is laid out as the later passes expect. */
  lemma ProgramWellFormed(al: ActList, e: Enc)
    requires ListOk(al) && SectionsOk(al, e, 0, -1)
    ensures WellFormed(Program(al, e))
  {
    hide ListOk, SectionsOk, Program;
    SizedFact(al, e, 0, -1);
    ProgramLength(al, e);
    var f := Program(al, e);
    forall k | 0 <= k < |f|
      ensures f[k].at == (if k == 0 then 0 else f[k - 1].at) + f[k].Max() && f[k].Max() >= 0
      ensures Placed(f, k)
    {
      var s, m := Locate(e.walk, |e.walk|, k);
      AddsUp(al, e, s, m);
      ProgramPlaced(al, e, s, m);
    }
    forall j, k | 0 <= j < k < |f| && (f[j].Label() || f[j].Rel())
      ensures f[j].pos < f[k].pos
    {
      FlatOrdered(al, e, j, k);
    }
    WellFormedIntro(f);
  }

  // ---------------------------------------------------------------- undefined globals

  /** Key k is a global label below index i. */
  predicate Global(key: Key, i: int) { key.LG? && 10 <= key.i < i }

  /** Reference h is settled, or refers to an undefined global below i and holds its marker. */
  ghost predicate Marked(b: Bufs, l: Labels, i: int, h: nat) {
    h < |l.hist| &&
    (Settled(b, l, h) ||
      (h !in l.bind && Global(l.hist[h].key, i) && l.hist[h].key in l.pend && h in l.pend[l.hist[h].key] &&
       Slot(b, l.hist[h].pos) == -(l.hist[h].key.i as int)))
  }

  /** The chains of the undefined globals below i have been replaced by markers. */
  ghost predicate Marking(b: Bufs, l: Labels, i: int) {
    EventsOk(b, l) && TablesOk(l) && MarkedRefs(b, l, i) && OtherChains(b, l, i) && DoneGlobals(b, l, i)
  }

  ghost predicate DoneGlobals(b: Bufs, l: Labels, i: int) {
    forall h :: 0 <= h < |l.hist| && !l.hist[h].def && Global(l.hist[h].key, i) ==> Marked(b, l, i, h)
  }

  lemma MarkingStarts(b: Bufs, l: Labels)
    requires Threaded(b, l)
    ensures Marking(b, l, 10)
  {
    hide EventsOk, TablesOk, Settled, Waits;
    forall h | 0 <= h < |l.hist| && !l.hist[h].def
      ensures Marked(b, l, 10, h) || (l.hist[h].key in l.pend && h in l.pend[l.hist[h].key])
    {
      assert Settled(b, l, h) || (l.hist[h].key in l.pend && h in l.pend[l.hist[h].key]);
    }
  }

  lemma ChainRewritten(a: Bufs, b: Bufs, l: Labels, key: Key, v: int, other: Key)
    requires EventsOk(a, l) && ChainOk(a, l, key) && ChainOk(a, l, other) && other != key
    requires Rewritten(a, b, ChainPos(l, key), v)
    ensures ChainOk(b, l, other)
  {
    forall j | 0 <= j < |l.pend[other]| ensures Waits(b, l, other, j) {
      assert Waits(a, l, other, j);
      var h := l.pend[other][j];
      PendingFact(a, l, key, h);
      PendingPos(a, l, key, h);
    }
  }

  lemma EventsRewritten2(a: Bufs, b: Bufs, l: Labels, ps: seq<int>, v: int)
    requires EventsOk(a, l) && Rewritten(a, b, ps, v)
    ensures EventsOk(b, l)
  {
  }

  lemma MarkOne(a: Bufs, b: Bufs, l: Labels, i: nat, h: nat)
    requires EventsOk(a, l) && ChainOk(a, l, LG(i)) && Rewritten(a, b, ChainPos(l, LG(i)), -(i as int)) && i >= 10
    requires h < |l.hist| && !l.hist[h].def
    requires Marked(a, l, i, h) || (l.hist[h].key in l.pend && h in l.pend[l.hist[h].key])
    ensures Marked(b, l, i + 1, h) || (l.hist[h].key in l.pend && h in l.pend[l.hist[h].key])
    ensures l.hist[h].key == LG(i) || Marked(a, l, i, h) ==> Marked(b, l, i + 1, h)
  {
    PendingFact(a, l, LG(i), h);
    PendingPos(a, l, LG(i), h);
    if Settled(a, l, h) {
      SettledRewritten(a, b, l, LG(i), -(i as int), h);
    }
  }

  ghost predicate MarkedRefs(b: Bufs, l: Labels, i: int) {
    forall h :: 0 <= h < |l.hist| && !l.hist[h].def ==>
      Marked(b, l, i, h) || (l.hist[h].key in l.pend && h in l.pend[l.hist[h].key])
  }

  ghost predicate OtherChains(b: Bufs, l: Labels, i: int) {
    forall key :: key in l.pend && !Global(key, i) ==> ChainOk(b, l, key)
  }

  lemma MarkRefs(a: Bufs, b: Bufs, l: Labels, i: nat)
    requires EventsOk(a, l) && MarkedRefs(a, l, i) && ChainOk(a, l, LG(i)) && i >= 10
    requires Rewritten(a, b, ChainPos(l, LG(i)), -(i as int))
    ensures MarkedRefs(b, l, i + 1)
  {
    hide EventsOk, Marked, ChainOk, Rewritten, ChainPos;
    forall h | 0 <= h < |l.hist| && !l.hist[h].def
      ensures Marked(b, l, i + 1, h) || (l.hist[h].key in l.pend && h in l.pend[l.hist[h].key])
    {
      MarkOne(a, b, l, i, h);
    }
  }

  lemma MarkDone(a: Bufs, b: Bufs, l: Labels, i: nat)
    requires EventsOk(a, l) && MarkedRefs(a, l, i) && DoneGlobals(a, l, i) && ChainOk(a, l, LG(i)) && i >= 10
    requires Rewritten(a, b, ChainPos(l, LG(i)), -(i as int))
    ensures DoneGlobals(b, l, i + 1)
  {
    hide EventsOk, Marked, ChainOk, Rewritten, ChainPos;
    forall h | 0 <= h < |l.hist| && !l.hist[h].def && Global(l.hist[h].key, i + 1)
      ensures Marked(b, l, i + 1, h)
    {
      MarkOne(a, b, l, i, h);
    }
  }

  lemma MarkChains(a: Bufs, b: Bufs, l: Labels, i: nat)
    requires EventsOk(a, l) && OtherChains(a, l, i) && LG(i) in l.pend && i >= 10
    requires Rewritten(a, b, ChainPos(l, LG(i)), -(i as int))
    ensures OtherChains(b, l, i + 1)
  {
    hide EventsOk, ChainOk, Rewritten, ChainPos;
    forall key | key in l.pend && !Global(key, i + 1) ensures ChainOk(b, l, key) {
      ChainRewritten(a, b, l, LG(i), -(i as int), key);
    }
  }

  /** Replacing the chain of global i by its marker. */
  lemma MarkKeeps(a: Bufs, b: Bufs, l: Labels, i: nat)
    requires Marking(a, l, i) && i >= 10 && LG(i) in l.pend
    requires Rewritten(a, b, ChainPos(l, LG(i)), -(i as int))
    ensures Marking(b, l, i + 1)
  {
    hide EventsOk, TablesOk, MarkedRefs, ChainOk, Rewritten, ChainPos;
    EventsRewritten2(a, b, l, ChainPos(l, LG(i)), -(i as int));
    MarkRefs(a, b, l, i);
    MarkChains(a, b, l, i);
    MarkDone(a, b, l, i);
  }

  /** Every reference holds the position of its definition or the marker of a global. */
  ghost predicate AllMarked(b: Bufs, l: Labels, lgsize: int) {
    && EventsOk(b, l) && TablesOk(l)
    && forall h :: 0 <= h < |l.hist| && !l.hist[h].def ==> Marked(b, l, lgsize, h)
  }

  lemma MarkedGlobals(b: Bufs, l: Labels, i: int, h: nat)
    requires EventsOk(b, l) && h < |l.hist| && Marked(b, l, i, h) && i >= 10
    ensures Slot(b, l.hist[h].pos) < 0 || Settled(b, l, h)
  {
  }

  /** Once no local and no PC label is pending, all references are done. */
  lemma MarkingEnds(b: Bufs, l: Labels, lgsize: int)
    requires Marking(b, l, lgsize)
    requires forall key :: key in l.lab && !Global(key, lgsize) ==> l.lab[key] <= 0
    ensures AllMarked(b, l, lgsize)
  {
    forall h | 0 <= h < |l.hist| && !l.hist[h].def ensures Marked(b, l, lgsize, h) {
      var key := l.hist[h].key;
      if !Global(key, lgsize) {
        assert TableOk(l, key);
      }
    }
  }

  // ---------------------------------------------------------------- every branch is resolved

  /** The label a settled branch jumps to is the definition its reference means. */
  lemma BranchTarget(al: ActList, e: Enc, s: nat, m: nat)
    requires SectionsOk(al, e, 0, -1) && EventsAt(al, e) && EventsOk(e.bufs, e.lbl)
    requires s < |e.walk| && m < |e.walk[s]| && IsRel(al, e.walk[s][m])
    ensures var h := e.walk[s][m].ev; 0 <= h < |e.lbl.hist| && !e.lbl.hist[h].def
    ensures var h := e.walk[s][m].ev;
            Settled(e.bufs, e.lbl, h) ==>
              && h in e.lbl.bind && e.lbl.bind[h] < |e.at|
              && var (s', m') := e.at[e.lbl.bind[h]];
                 s' < |e.walk| && m' < |e.walk[s']| &&
                 Jumps(Program(al, e), Base(e.walk, s) + m, Base(e.walk, s') + m')
    ensures Base(e.walk, s) + m < |Program(al, e)| &&
            Program(al, e)[Base(e.walk, s) + m].link == Slot(e.bufs, e.lbl.hist[e.walk[s][m].ev].pos)
  {
    hide SectionsOk, Program, Flat, NoDef, Base;
    SizedFact(al, e, 0, -1);
    ProgramRel(al, e, s, m);
    assert EventOf(al, e, s, m);
    var h := e.walk[s][m].ev;
    assert EventAt(al, e, h);
    if Settled(e.bufs, e.lbl, h) {
      var d := e.lbl.bind[h];
      assert EventAt(al, e, d);
      var (s', m') := e.at[d];
      ProgramRel(al, e, s', m');
    }
  }

  lemma ProgramResolved(al: ActList, e: Enc, lgsize: int)
    requires SectionsOk(al, e, 0, -1) && EventsAt(al, e) && AllMarked(e.bufs, e.lbl, lgsize) && lgsize >= 10
    ensures Resolved(Program(al, e))
  {
    hide SectionsOk, EventsAt, EventsOk, Settled, Marked, Program, Jumps;
    SizedFact(al, e, 0, -1);
    ProgramLength(al, e);
    var f := Program(al, e);
    forall k | 0 <= k < |f| && f[k].Rel()
      ensures f[k].link < 0 || exists t :: Jumps(f, k, t)
    {
      var s, m := Locate(e.walk, |e.walk|, k);
      ProgramRel(al, e, s, m);
      BranchTarget(al, e, s, m);
      MarkedGlobals(e.bufs, e.lbl, lgsize, e.walk[s][m].ev);
    }
  }

  lemma ProgramLength(al: ActList, e: Enc)
    requires Sized(e)
    ensures |Program(al, e)| == Base(e.walk, |e.walk|)
  {
  }

  lemma ProgramRel(al: ActList, e: Enc, s: nat, m: nat)
    requires Sized(e) && s < |e.walk| && m < |e.walk[s]|
    ensures Base(e.walk, s) + m < |Program(al, e)|
    ensures Program(al, e)[Base(e.walk, s) + m] == ItemAt(al, e, s, m)
    ensures Program(al, e)[Base(e.walk, s) + m].Rel() == IsRel(al, e.walk[s][m])
  {
    FlatAt(al, e, |e.walk|, s, m);
  }

  /** A branch with a marker refers to a global that no label of the program defines. */
  lemma MarkerUndefined(al: ActList, e: Enc, lgsize: int, g: nat, t: nat)
    requires SectionsOk(al, e, 0, -1) && EventsAt(al, e) && AllMarked(e.bufs, e.lbl, lgsize)
    requires Sized(e) && g < |Program(al, e)| && t < |Program(al, e)|
    requires Program(al, e)[g].Rel() && Program(al, e)[g].link < 0
    ensures Program(al, e)[g].act.RelLG?
    ensures Program(al, e)[t].Label() && Program(al, e)[t].act.LabelLG? ==>
              Program(al, e)[t].act.n as int != -Program(al, e)[g].link
  {
    hide SectionsOk, EventsAt, AllMarked, Program, NoDef, Base, EventAt, KeyOf;
    ProgramLength(al, e);
    var s, m := Locate(e.walk, |e.walk|, g);
    ProgramRel(al, e, s, m);
    MarkerRef(al, e, lgsize, s, m);
    var s', m' := Locate(e.walk, |e.walk|, t);
    ProgramRel(al, e, s', m');
    LabelEvent(al, e, s', m', LG(-Program(al, e)[g].link));
  }

  lemma LabelEvent(al: ActList, e: Enc, s: nat, m: nat, key: Key)
    requires EventsAt(al, e) && s < |e.walk| && m < |e.walk[s]|
    requires NoDef(e.lbl.hist, key, 0, |e.lbl.hist|)
    ensures IsLabel(al, e.walk[s][m]) && Act(al, e.walk[s][m].p).LabelLG? ==> key != LG(Act(al, e.walk[s][m].p).n)
  {
    assert EventOf(al, e, s, m);
    if IsLabel(al, e.walk[s][m]) {
      assert EventAt(al, e, e.walk[s][m].ev);
    }
  }

  lemma MarkerRef(al: ActList, e: Enc, lgsize: int, s: nat, m: nat)
    requires SectionsOk(al, e, 0, -1) && EventsAt(al, e) && AllMarked(e.bufs, e.lbl, lgsize)
    requires s < |e.walk| && m < |e.walk[s]| && IsRel(al, e.walk[s][m])
    requires Sized(e) && ItemAt(al, e, s, m).link < 0
    ensures Act(al, e.walk[s][m].p).RelLG?
    ensures NoDef(e.lbl.hist, LG(-ItemAt(al, e, s, m).link), 0, |e.lbl.hist|)
  {
    hide SectionsOk, NoDef, Settled, EventsOk, TablesOk;
    assert EventOf(al, e, s, m);
    var h := e.walk[s][m].ev;
    assert EventAt(al, e, h);
    assert Marked(e.bufs, e.lbl, lgsize, h);
    MarkerKey(al, e, lgsize, s, m, h);
  }

  lemma MarkerKey(al: ActList, e: Enc, lgsize: int, s: nat, m: nat, h: nat)
    requires EventsOk(e.bufs, e.lbl) && TablesOk(e.lbl) && EventAt(al, e, h) && e.at[h] == (s, m)
    requires Marked(e.bufs, e.lbl, lgsize, h) && Slot(e.bufs, e.lbl.hist[h].pos) < 0
    ensures s < |e.walk| && m < |e.walk[s]| && Act(al, e.walk[s][m].p).RelLG?
    ensures e.lbl.hist[h].key.LG? && e.lbl.hist[h].key.i as int == -Slot(e.bufs, e.lbl.hist[h].pos)
    ensures NoDef(e.lbl.hist, e.lbl.hist[h].key, 0, |e.lbl.hist|)
  {
    var key := e.lbl.hist[h].key;
    assert TableOk(e.lbl, key);
  }
}

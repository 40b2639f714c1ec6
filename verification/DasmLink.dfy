/** The section buffers during the link pass. */
module DasmLink {
  import opened DasmLayout
  import opened DasmLabels
  import opened DasmWalk
  import opened DasmState
  import opened DasmFlat

  /** The put pass is over and every reference is settled or marked. */
  ghost predicate Ready(al: ActList, e: Enc, lgsize: int) {
    ListOk(al) && SectionsOk(al, e, 0, -1) && EventsAt(al, e) && AllMarked(e.bufs, e.lbl, lgsize) && lgsize >= 10
  }

  /** What the buffer of a section holds for step `it`, number g of program f, when the
      link pass has reached number k: a branch its shrink, a label its final offset. */
  ghost predicate Holds(al: ActList, f: seq<Item>, buf: seq<int>, it: Step, g: nat, k: int) {
    && g < |f| && it.idx + Slots(al, it) <= |buf|
    && (it.start ==> buf[it.idx] == it.p)
    && (!it.start ==>
          match Act(al, it.p)
          case Imm(_) => buf[it.idx] == it.n
          case Space(_) => buf[it.idx] == it.n
          case RelLG(_) => buf[it.idx] == f[g].link && buf[it.idx + 1] == (if g < k then ItemCut(f, g) else it.o1)
          case RelPC => buf[it.idx] == f[g].link && buf[it.idx + 1] == (if g < k then ItemCut(f, g) else it.o1)
          case LabelLG(_) => buf[it.idx] == (if g < k then Fin(f, g) else it.o1)
          case LabelPC => buf[it.idx] == (if g < k then Fin(f, g) else it.o1)
          case Align(_) => buf[it.idx] == it.o1
          case _ => true)
  }

  ghost predicate HoldsAt(al: ActList, e: Enc, f: seq<Item>, b: Bufs, k: int, s: int, m: int) {
    0 <= s < |e.walk| == |b| && 0 <= m < |e.walk[s]| && Holds(al, f, b[s], e.walk[s][m], Base(e.walk, s) + m, k)
  }

  ghost predicate AllHold(al: ActList, e: Enc, f: seq<Item>, b: Bufs, k: int) {
    forall s, m :: 0 <= s < |e.walk| && 0 <= m < |e.walk[s]| ==> HoldsAt(al, e, f, b, k, s, m)
  }

  ghost predicate Linking(al: ActList, e: Enc, f: seq<Item>, b: Bufs, k: int) {
    SameShape(e.bufs, b) && |e.walk| == |b| && AllHold(al, e, f, b, k)
  }

  lemma LinkStarts(al: ActList, e: Enc)
    requires SectionsOk(al, e, 0, -1)
    ensures Linking(al, e, Program(al, e), e.bufs, 0)
  {
    var f := Program(al, e);
    forall s, m | 0 <= s < |e.walk| && 0 <= m < |e.walk[s]| ensures HoldsAt(al, e, f, e.bufs, 0, s, m) {
      StartHolds(al, e, s, m);
    }
  }

  lemma StartHolds(al: ActList, e: Enc, s: nat, m: nat)
    requires SectionsOk(al, e, 0, -1) && s < |e.walk| && m < |e.walk[s]|
    ensures HoldsAt(al, e, Program(al, e), e.bufs, 0, s, m)
  {
    ProgramRel(al, e, s, m);
    SectionParts(al, e, s);
    var it := e.walk[s][m];
    assert Stored(al, e.bufs[s], it);
    if Slots(al, it) > 0 {
      PosParts(s, it.idx);
    }
  }

  /** A step that the link pass leaves as it is. */
  lemma LinkSkips(al: ActList, e: Enc, f: seq<Item>, b: Bufs, s: nat, m: nat)
    requires Sized(e) && s < |e.walk| && m < |e.walk[s]|
    requires Linking(al, e, f, b, Base(e.walk, s) + m)
    requires !IsRel(al, e.walk[s][m]) && !IsLabel(al, e.walk[s][m])
    ensures Linking(al, e, f, b, Base(e.walk, s) + m + 1)
  {
    hide Holds;
    var k := Base(e.walk, s) + m;
    var k' := k + 1;
    forall i, j | 0 <= i < |e.walk| && 0 <= j < |e.walk[i]| ensures HoldsAt(al, e, f, b, k', i, j) {
      assert HoldsAt(al, e, f, b, k, i, j);
      Ordered(e.walk, s, m, i, j);
      Ordered(e.walk, i, j, s, m);
      HoldsNext(al, f, b[i], e.walk[i][j], Base(e.walk, i) + j, k);
    }
  }

  /** Only step k itself is affected when the link pass moves beyond it. */
  lemma HoldsNext(al: ActList, f: seq<Item>, buf: seq<int>, it: Step, g: nat, k: nat)
    requires Holds(al, f, buf, it, g, k)
    requires g != k || (!IsRel(al, it) && !IsLabel(al, it))
    ensures Holds(al, f, buf, it, g, k + 1)
  {
  }

  /** The slot that the link pass writes for a branch or a label. */
  function WrittenSlot(al: ActList, it: Step): nat { if IsRel(al, it) then it.idx + 1 else it.idx }

  /** What the link pass writes for a branch or a label. */
  ghost function LinkResult(al: ActList, f: seq<Item>, it: Step, k: nat): int
    requires k < |f|
  {
    if IsRel(al, it) then ItemCut(f, k) else Fin(f, k)
  }

  /** Buffers with the result of step (s, m) written. */
  ghost function WithResult(al: ActList, e: Enc, f: seq<Item>, b: Bufs, s: nat, m: nat): Bufs {
    if s < |e.walk| && s < |b| && m < |e.walk[s]| && Base(e.walk, s) + m < |f|
      && WrittenSlot(al, e.walk[s][m]) < |b[s]| then
      b[s := b[s][WrittenSlot(al, e.walk[s][m]) := LinkResult(al, f, e.walk[s][m], Base(e.walk, s) + m)]]
    else b
  }

  lemma HoldsFrame(al: ActList, f: seq<Item>, buf: seq<int>, it: Step, g: nat, k: nat, x: nat, v: int)
    requires Holds(al, f, buf, it, g, k) && x < |buf| && (x < it.idx || it.idx + Slots(al, it) <= x)
    ensures Holds(al, f, buf[x := v], it, g, k)
  {
  }

  lemma HoldsWritten(al: ActList, f: seq<Item>, buf: seq<int>, it: Step, k: nat, v: int)
    requires Holds(al, f, buf, it, k, k) && (IsRel(al, it) || IsLabel(al, it))
    requires v == LinkResult(al, f, it, k)
    ensures WrittenSlot(al, it) < |buf|
    ensures Holds(al, f, buf[WrittenSlot(al, it) := v], it, k, k + 1)
  {
  }

  /** Writing the result for step (s, m) leaves what the buffers hold for step (i, j). */
  lemma LinkWritesOne(al: ActList, e: Enc, f: seq<Item>, b: Bufs, s: nat, m: nat, i: nat, j: nat)
    requires SectionsOk(al, e, 0, -1) && s < |e.walk| && m < |e.walk[s]|
    requires HoldsAt(al, e, f, b, Base(e.walk, s) + m, s, m)
    requires HoldsAt(al, e, f, b, Base(e.walk, s) + m, i, j)
    requires IsRel(al, e.walk[s][m]) || IsLabel(al, e.walk[s][m])
    ensures s < |b| && Base(e.walk, s) + m < |f| && WrittenSlot(al, e.walk[s][m]) < |b[s]|
    ensures HoldsAt(al, e, f, WithResult(al, e, f, b, s, m), Base(e.walk, s) + m + 1, i, j)
  {
    hide Holds, IsRel, IsLabel, SectionsOk, WrittenSlot, Base, LinkResult;
    var k, x := Base(e.walk, s) + m, WrittenSlot(al, e.walk[s][m]);
    HoldsBound(al, f, b[s], e.walk[s][m], k, k);
    var v := LinkResult(al, f, e.walk[s][m], k);
    HoldsWritten(al, f, b[s], e.walk[s][m], k, v);
    Ordered(e.walk, s, m, i, j);
    Ordered(e.walk, i, j, s, m);
    if i != s || j != m {
      HoldsNext(al, f, b[i], e.walk[i][j], Base(e.walk, i) + j, k);
      if i == s {
        StepsApart(al, e, s, m, j);
        HoldsFrame(al, f, b[s], e.walk[s][j], Base(e.walk, s) + j, k + 1, x, v);
      }
    }
  }

  lemma HoldsBound(al: ActList, f: seq<Item>, buf: seq<int>, it: Step, g: nat, k: int)
    requires Holds(al, f, buf, it, g, k)
    ensures g < |f|
  {
  }

  lemma AllHoldWrites(al: ActList, e: Enc, f: seq<Item>, b: Bufs, s: nat, m: nat, k: nat)
    requires SectionsOk(al, e, 0, -1) && s < |e.walk| && m < |e.walk[s]|
    requires k == Base(e.walk, s) + m && AllHold(al, e, f, b, k)
    requires IsRel(al, e.walk[s][m]) || IsLabel(al, e.walk[s][m])
    ensures AllHold(al, e, f, WithResult(al, e, f, b, s, m), k + 1)
  {
    hide HoldsAt, IsRel, IsLabel, SectionsOk, Base, WithResult;
    var b', k' := WithResult(al, e, f, b, s, m), k + 1;
    assert HoldsAt(al, e, f, b, k, s, m);
    forall i, j | 0 <= i < |e.walk| && 0 <= j < |e.walk[i]| ensures HoldsAt(al, e, f, b', k', i, j) {
      assert HoldsAt(al, e, f, b, k, i, j);
      LinkWritesOne(al, e, f, b, s, m, i, j);
    }
  }

  /** Writing the result for step k. */
  lemma LinkWrites(al: ActList, e: Enc, f: seq<Item>, b: Bufs, s: nat, m: nat)
    requires SectionsOk(al, e, 0, -1) && s < |e.walk| && m < |e.walk[s]|
    requires Linking(al, e, f, b, Base(e.walk, s) + m)
    requires IsRel(al, e.walk[s][m]) || IsLabel(al, e.walk[s][m])
    ensures s < |b| && Base(e.walk, s) + m < |f| && WrittenSlot(al, e.walk[s][m]) < |b[s]|
    ensures Linking(al, e, f, WithResult(al, e, f, b, s, m), Base(e.walk, s) + m + 1)
  {
    hide HoldsAt, IsRel, IsLabel, SectionsOk, WrittenSlot, Base, LinkResult;
    AllHoldWrites(al, e, f, b, s, m, Base(e.walk, s) + m);
    LinkWritesOne(al, e, f, b, s, m, s, m);
  }

  lemma StepsApart(al: ActList, e: Enc, s: nat, m: nat, j: nat)
    requires SectionsOk(al, e, 0, -1) && s < |e.walk| && m < |e.walk[s]| && j < |e.walk[s]| && m != j
    requires IsRel(al, e.walk[s][m]) || IsLabel(al, e.walk[s][m])
    ensures var x := WrittenSlot(al, e.walk[s][m]);
            x < e.walk[s][j].idx || e.walk[s][j].idx + Slots(al, e.walk[s][j]) <= x
  {
    SectionParts(al, e, s);
    if m < j {
      IdxMonotone(al, e.walk[s], m, j);
    } else {
      IdxMonotone(al, e.walk[s], j, m);
    }
  }

  // ---------------------------------------------------------------- offsets of labels

  /** What the link pass reads at the position of a label. */
  lemma LabelRead(al: ActList, e: Enc, b: Bufs, k: nat, g: nat, t: nat) returns (s: nat, m: nat)
    requires SectionsOk(al, e, 0, -1)
    requires Linking(al, e, Program(al, e), b, k) && Jumps(Program(al, e), g, t)
    ensures s < |e.walk| && m < |e.walk[s]| && t == Base(e.walk, s) + m
    ensures var f := Program(al, e);
            && f[g].link == Pos(s, e.walk[s][m].idx) && InBufs(b, f[g].link) && f[g].link / BIAS == s
            && Slot(b, f[g].link) == (if t < k then Fin(f, t) else f[t].at - OfsBase(e.ofs, s))
  {
    ProgramLength(al, e);
    s, m := Locate(e.walk, |e.walk|, t);
    ProgramRel(al, e, s, m);
    assert HoldsAt(al, e, Program(al, e), b, k, s, m);
    SectionParts(al, e, s);
    PosParts(s, e.walk[s][m].idx);
  }

  /** The distance that the link pass computes is the one of the layout. */
  lemma DistanceRead(al: ActList, e: Enc, b: Bufs, s: nat, m: nat, t: nat, s': nat, ofs: int)
    requires SectionsOk(al, e, 0, -1) && s < |e.walk| && m < |e.walk[s]| && s' < |e.walk|
    requires var f, g := Program(al, e), Base(e.walk, s) + m;
             && WellFormed(f) && Jumps(f, g, t) && ofs == OfsBase(e.ofs, s) - Cut(f, g)
             && InBufs(b, f[g].link)
             && Slot(b, f[g].link) == (if t < g then Fin(f, t) else f[t].at - OfsBase(e.ofs, s'))
    ensures var f, g := Program(al, e), Base(e.walk, s) + m;
            && (f[g].link > f[g].pos <==> t > g)
            && (if t > g then
                  Slot(b, f[g].link) + (OfsBase(e.ofs, s') - OfsBase(e.ofs, s)) - e.walk[s][m].o1 == Distance(f, g, t)
                else Slot(b, f[g].link) - ofs - e.walk[s][m].o1 == Distance(f, g, t))
  {
    hide SectionsOk, Cut, ItemCut;
    SizedFact(al, e, 0, -1);
    ProgramRel(al, e, s, m);
    var f, g := Program(al, e), Base(e.walk, s) + m;
    assert t != g;
    if t < g {
      LabelSize(f, t);
    }
  }

  lemma LabelSize(f: seq<Item>, t: nat)
    requires WellFormed(f) && t < |f| && f[t].Label()
    ensures Fin(f, t) == f[t].at - Cut(f, t) && Fin(f, t + 1) == Fin(f, t)
  {
    ItemFits(f, t);
  }

  lemma ReadyProgram(al: ActList, e: Enc, lgsize: int)
    requires Ready(al, e, lgsize)
    ensures Sized(e) && WellFormed(Program(al, e)) && Resolved(Program(al, e))
    ensures |Program(al, e)| == Base(e.walk, |e.walk|)
  {
    hide SectionsOk, EventsAt, AllMarked, WellFormed, Resolved, ListOk, Program;
    SizedFact(al, e, 0, -1);
    ProgramWellFormed(al, e);
    ProgramResolved(al, e, lgsize);
    ProgramLength(al, e);
  }

  /** What a pass sees at step (s, m): its program item, its buffer slots, its successor. */
  lemma StepView(al: ActList, e: Enc, b: Bufs, k: int, s: nat, m: nat)
    requires SectionsOk(al, e, 0, -1) && s < |e.walk| && m < |e.walk[s]|
    requires Linking(al, e, Program(al, e), b, k)
    ensures var f, g, it := Program(al, e), Base(e.walk, s) + m, e.walk[s][m];
            && g < |f| && f[g] == ItemAt(al, e, s, m) && s < |b| && Holds(al, f, b[s], it, g, k)
            && it.idx == EndIdx(al, e.walk[s], m) && it.p < |al|
            && it.idx + Slots(al, it) == EndIdx(al, e.walk[s], m + 1)
            && (if After(al, e.walk[s], m) == -1 then it.start else !it.start && it.p == After(al, e.walk[s], m))
            && After(al, e.walk[s], m + 1) == NextP(al, it)
            && f[g].at == OfsBase(e.ofs, s) + it.o1
  {
    hide Holds, Slots, NextP, Program, SectionsOk, StartOk, MaxOf, OfsBase;
    SizedFact(al, e, 0, -1);
    ProgramRel(al, e, s, m);
    SectionParts(al, e, s);
    assert StepOk(al, e.walk[s], m);
    assert HoldsAt(al, e, Program(al, e), b, k, s, m);
  }

  /** Between puts, the walk over a section is over when its buffer is used up. */
  lemma WalkEnds(al: ActList, e: Enc, s: nat, m: nat)
    requires SectionsOk(al, e, 0, -1) && s < |e.walk| && m <= |e.walk[s]| && After(al, e.walk[s], m) == -1
    ensures EndIdx(al, e.walk[s], m) <= |e.bufs[s]|
    ensures EndIdx(al, e.walk[s], m) == |e.bufs[s]| <==> m == |e.walk[s]|
  {
    SectionParts(al, e, s);
    var w := e.walk[s];
    if m < |w| {
      assert StepOk(al, w, m);
      StepBelow(al, w, m);
    }
  }

  /** Inside a put there is always a next step. */
  lemma WalkGoesOn(al: ActList, e: Enc, s: nat, m: nat)
    requires SectionsOk(al, e, 0, -1) && s < |e.walk| && m <= |e.walk[s]| && After(al, e.walk[s], m) != -1
    ensures m < |e.walk[s]|
  {
    assert SectionOk(al, e, 0, -1, s);
  }

  lemma CutNext(f: seq<Item>, g: nat)
    requires g < |f|
    ensures Cut(f, g + 1) == Cut(f, g) + ItemCut(f, g)
  {
  }

  lemma CutOf(f: seq<Item>, g: nat)
    requires g < |f|
    ensures f[g].start || !(f[g].act.Rel() || f[g].act.Align?) ==> ItemCut(f, g) == 0
    ensures !f[g].start && f[g].act.Align? ==> ItemCut(f, g) == (f[g].at - Cut(f, g)) % (f[g].act.mask as int + 1)
    ensures f[g].Rel() && Target(f, g) == -1 ==> ItemCut(f, g) == 0
    ensures f[g].Rel() && Target(f, g) >= 0 ==>
              ItemCut(f, g) == if f[g].Shrink() != 0 && -128 - f[g].Shrink() <= Distance(f, g, Target(f, g)) <= 127
                               then f[g].Shrink() else 0
  {
  }
}

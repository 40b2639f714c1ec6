/** The state of the DynASM put pass over all sections, and what every action keeps. */
module DasmState {
  import opened DasmLayout
  import opened DasmLabels
  import opened DasmWalk

  /** Section buffers and sizes, the walk over each section, the label threading, and for
      each label event the section and step it belongs to. */
  datatype Enc = Enc(bufs: Bufs, ofs: seq<int>, walk: seq<seq<Step>>, lbl: Labels, at: seq<(nat, nat)>)

  ghost predicate Sized(e: Enc) {
    |e.bufs| == |e.ofs| == |e.walk|
  }

  /** Section i is well formed; section s is inside a put that continues with `next`. */
  ghost predicate SectionOk(al: ActList, e: Enc, s: int, next: int, i: int)
    requires Sized(e)
  {
    0 <= i < |e.bufs| ==>
      && SecOk(al, e.walk[i], e.bufs[i], e.ofs[i])
      && |e.bufs[i]| <= BIAS
      && After(al, e.walk[i], |e.walk[i]|) == if i == s then next else -1
  }

  ghost predicate SectionsOk(al: ActList, e: Enc, s: int, next: int) {
    Sized(e) && forall i :: 0 <= i < |e.bufs| ==> SectionOk(al, e, s, next, i)
  }

  /** The label that a branch or label step names, and whether it asks for a later one. */
  function KeyOf(al: ActList, it: Step): Key {
    match Act(al, it.p)
    case RelLG(n) => if n <= 246 then LG(n) else LG(n - 246)
    case LabelLG(n) => LG(n)
    case _ => PC(if it.n < 0 then 0 else it.n)
  }

  predicate FwdOf(al: ActList, it: Step) {
    var a := Act(al, it.p); a.RelLG? && a.n > 246
  }

  /** Event h belongs to a branch or a label of the walk. */
  ghost predicate EventAt(al: ActList, e: Enc, h: int) {
    0 <= h < |e.lbl.hist| && h < |e.at| &&
    var (s, m) := e.at[h];
    && s < |e.walk| && m < |e.walk[s]| && e.walk[s][m].ev == h
    && (if e.lbl.hist[h].def then IsLabel(al, e.walk[s][m]) else IsRel(al, e.walk[s][m]))
    && e.lbl.hist[h].pos == Pos(s, e.walk[s][m].idx)
    && e.lbl.hist[h].key == KeyOf(al, e.walk[s][m]) && e.lbl.hist[h].fwd == FwdOf(al, e.walk[s][m])
  }

  ghost predicate EventOf(al: ActList, e: Enc, s: int, m: int) {
    0 <= s < |e.walk| && 0 <= m < |e.walk[s]| &&
    (IsRel(al, e.walk[s][m]) || IsLabel(al, e.walk[s][m]) ==>
      var h := e.walk[s][m].ev; 0 <= h < |e.lbl.hist| && h < |e.at| && e.at[h] == (s, m))
  }

  ghost predicate EventsAt(al: ActList, e: Enc) {
    && |e.at| == |e.lbl.hist|
    && (forall h :: 0 <= h < |e.at| ==> EventAt(al, e, h))
    && (forall s, m :: 0 <= s < |e.walk| && 0 <= m < |e.walk[s]| ==> EventOf(al, e, s, m))
  }

  /** Section s is inside a put that continues with action `next` (-1: between puts). */
  ghost predicate Good(al: ActList, e: Enc, s: int, next: int) {
    SectionsOk(al, e, s, next) && EventsAt(al, e) && Threaded(e.bufs, e.lbl)
  }

  /** The step that the put pass appends for action p (or for the start of a put). */
  ghost function NewStep(al: ActList, e: Enc, s: nat, start: bool, p: nat, n: int, ev: int): Step
    requires Sized(e) && s < |e.bufs|
  {
    var it := Step(start, p, n, |e.bufs[s]|, 0, ev);
    it.(o1 := e.ofs[s] + MaxOf(al, it))
  }

  ghost function Pushed(e: Enc, s: nat, it: Step, vals: seq<int>): Enc
    requires Sized(e) && s < |e.bufs|
  {
    e.(bufs := e.bufs[s := e.bufs[s] + vals], ofs := e.ofs[s := it.o1], walk := e.walk[s := e.walk[s] + [it]])
  }

  lemma SectionFacts(al: ActList, e: Enc, s: int, next: int)
    requires SectionsOk(al, e, s, next) && 0 <= s < |e.bufs|
    ensures Sized(e) && SecOk(al, e.walk[s], e.bufs[s], e.ofs[s])
    ensures After(al, e.walk[s], |e.walk[s]|) == next
  {
    assert SectionOk(al, e, s, next, s);
  }

  /** Appending a step that fits keeps the sections well formed. */
  lemma SectionsPush(al: ActList, e: Enc, s: nat, next: int, it: Step, vals: seq<int>)
    requires SectionsOk(al, e, s, next) && s < |e.bufs|
    requires |e.bufs[s]| + |vals| <= BIAS
    requires it.p < |al| && it.idx == |e.bufs[s]| && it.o1 == e.ofs[s] + MaxOf(al, it) && MaxOf(al, it) >= 0
    requires if next == -1 then it.start && StartOk(al, it.p) else !it.start && it.p == next
    requires |vals| == Slots(al, it) && Stored(al, e.bufs[s] + vals, it)
    ensures SectionsOk(al, Pushed(e, s, it, vals), s, NextP(al, it))
  {
    hide SecOk, Stored, MaxOf, Slots, NextP, StartOk, After;
    SectionFacts(al, e, s, next);
    SecPush(al, e.walk[s], e.bufs[s], e.ofs[s], it, vals);
    var e' := Pushed(e, s, it, vals);
    forall i | 0 <= i < |e'.bufs|
      ensures SectionOk(al, e', s, NextP(al, it), i)
    {
      assert SectionOk(al, e, s, next, i);
    }
  }

  /** Appending a step without label event keeps the events in place. */
  lemma EventsPush(al: ActList, e: Enc, s: nat, it: Step, vals: seq<int>)
    requires EventsAt(al, e) && Sized(e) && s < |e.bufs| && !IsRel(al, it) && !IsLabel(al, it)
    ensures EventsAt(al, Pushed(e, s, it, vals))
  {
    hide IsRel, IsLabel, KeyOf, FwdOf;
    var e' := Pushed(e, s, it, vals);
    forall h | 0 <= h < |e'.at| ensures EventAt(al, e', h) {
      assert EventAt(al, e, h);
      var (i, m) := e.at[h];
      assert e'.walk[i][m] == e.walk[i][m];
    }
    forall i, m | 0 <= i < |e'.walk| && 0 <= m < |e'.walk[i]| ensures EventOf(al, e', i, m) {
      if i != s || m < |e.walk[s]| {
        assert EventOf(al, e, i, m);
      }
    }
  }

  /** Every action that neither refers to a label nor places one. */
  lemma PushKeeps(al: ActList, e: Enc, s: nat, next: int, it: Step, vals: seq<int>)
    requires Good(al, e, s, next) && s < |e.bufs| && !IsRel(al, it) && !IsLabel(al, it)
    requires |e.bufs[s]| + |vals| <= BIAS
    requires it.p < |al| && it.idx == |e.bufs[s]| && it.o1 == e.ofs[s] + MaxOf(al, it) && MaxOf(al, it) >= 0
    requires if next == -1 then it.start && StartOk(al, it.p) else !it.start && it.p == next
    requires |vals| == Slots(al, it) && Stored(al, e.bufs[s] + vals, it)
    ensures Good(al, Pushed(e, s, it, vals), s, NextP(al, it))
  {
    hide SectionsOk, EventsAt, Threaded, Stored, MaxOf, Slots, NextP, StartOk, IsRel, IsLabel, Extends;
    SizedFact(al, e, s, next);
    SectionsPush(al, e, s, next, it, vals);
    EventsPush(al, e, s, it, vals);
    PushExtends(e.bufs, s, vals);
    GrowKeeps(e.bufs, Pushed(e, s, it, vals).bufs, e.lbl);
  }

  lemma SizedFact(al: ActList, e: Enc, s: int, next: int)
    requires SectionsOk(al, e, s, next)
    ensures Sized(e)
  {
  }

  /** A step with a label event extends the event table by one. */
  ghost function WithEvent(e: Enc, s: nat, it: Step, vals: seq<int>, lbl: Labels): Enc
    requires Sized(e) && s < |e.bufs|
  {
    Pushed(e, s, it, vals).(lbl := lbl, at := e.at + [(s, |e.walk[s]|)])
  }

  lemma EventsPushNew(al: ActList, e: Enc, s: nat, it: Step, vals: seq<int>, lbl: Labels, ev: Event)
    requires EventsAt(al, e) && Sized(e) && s < |e.bufs|
    requires lbl.hist == e.lbl.hist + [ev] && it.ev == |e.lbl.hist|
    requires if ev.def then IsLabel(al, it) else IsRel(al, it)
    requires ev.pos == Pos(s, it.idx) && ev.key == KeyOf(al, it) && ev.fwd == FwdOf(al, it)
    ensures EventsAt(al, WithEvent(e, s, it, vals, lbl))
  {
    hide IsRel, IsLabel, KeyOf, FwdOf;
    var e' := WithEvent(e, s, it, vals, lbl);
    forall h | 0 <= h < |e'.at| ensures EventAt(al, e', h) {
      if h < |e.at| {
        assert EventAt(al, e, h);
        var (i, m) := e.at[h];
        assert e'.walk[i][m] == e.walk[i][m];
      }
    }
    forall i, m | 0 <= i < |e'.walk| && 0 <= m < |e'.walk[i]| ensures EventOf(al, e', i, m) {
      if i != s || m < |e.walk[s]| {
        assert EventOf(al, e, i, m);
      }
    }
  }

  lemma NewPosition(al: ActList, e: Enc, s: nat, next: int)
    requires Good(al, e, s, next) && s < |e.bufs| && |e.bufs[s]| < BIAS
    ensures !InBufs(e.bufs, Pos(s, |e.bufs[s]|))
    ensures forall h :: 0 <= h < |e.lbl.hist| ==> e.lbl.hist[h].pos != Pos(s, |e.bufs[s]|)
    ensures next != -1 ==> Pos(s, |e.bufs[s]|) > 0
  {
    PosParts(s, |e.bufs[s]|);
    SectionFacts(al, e, s, next);
    if next != -1 {
      var w := e.walk[s];
      assert StepOk(al, w, 0);
      if |w| > 1 {
        IdxMonotone(al, w, 0, |w| - 1);
      }
    }
  }

  // ---------------------------------------------------------------- references

  ghost predicate RelFits(al: ActList, e: Enc, s: nat, next: int, it: Step) {
    && Sized(e) && s < |e.bufs| && |e.bufs[s]| + 2 <= BIAS
    && IsRel(al, it) && it.p == next && it.idx == |e.bufs[s]| && it.o1 == e.ofs[s] + 4
    && it.ev == |e.lbl.hist| && it.p < |al|
  }

  lemma RelSections(al: ActList, e: Enc, s: nat, next: int, it: Step, link: int)
    requires SectionsOk(al, e, s, next) && RelFits(al, e, s, next, it)
    ensures SectionsOk(al, Pushed(e, s, it, [link, it.o1]), s, NextP(al, it))
  {
    assert next != -1;
    assert MaxOf(al, it) == 4;
    SectionsPush(al, e, s, next, it, [link, it.o1]);
  }

  /** A reference to a placed label stores its position. */
  lemma RefBoundStep(al: ActList, e: Enc, s: nat, next: int, it: Step, key: Key)
    requires Good(al, e, s, next) && RelFits(al, e, s, next, it)
    requires key in e.lbl.lab && e.lbl.lab[key] < 0 && key == KeyOf(al, it) && !FwdOf(al, it)
    ensures key in e.lbl.last
    ensures Good(al, WithEvent(e, s, it, [-e.lbl.lab[key], it.o1], RefBound(e.lbl, key, Pos(s, it.idx))),
                 s, NextP(al, it))
  {
    hide SectionsOk, EventsAt, Threaded, Extends, NextP, InBufs, Slot, KeyOf, FwdOf;
    var pos, vals := Pos(s, it.idx), [-e.lbl.lab[key], it.o1];
    NewPosition(al, e, s, next);
    RelSections(al, e, s, next, it, vals[0]);
    PushExtends(e.bufs, s, vals);
    PushedSlot(e.bufs, s, vals, 0);
    var bufs := e.bufs[s := e.bufs[s] + vals];
    GrowKeeps(e.bufs, bufs, e.lbl);
    RefBoundKeeps(bufs, e.lbl, key, pos);
    var lbl := RefBound(e.lbl, key, pos);
    EventsPushNew(al, e, s, it, vals, lbl, Event(false, key, false, pos));
    SectionsLabels(al, Pushed(e, s, it, vals), WithEvent(e, s, it, vals, lbl), s, NextP(al, it));
  }

  /** A reference to a label not placed yet stores the head of its chain. */
  lemma RefLinkedStep(al: ActList, e: Enc, s: nat, next: int, it: Step, key: Key, fwd: bool)
    requires Good(al, e, s, next) && RelFits(al, e, s, next, it)
    requires key in e.lbl.lab && (fwd || (e.lbl.lab[key] >= 0 && !key.Local()))
    requires fwd ==> key.Local()
    requires key == KeyOf(al, it) && fwd == FwdOf(al, it)
    ensures key in e.lbl.pend
    ensures var n := e.lbl.lab[key];
            Good(al, WithEvent(e, s, it, [if n > 0 then n else 0, it.o1], RefLinked(e.lbl, key, fwd, Pos(s, it.idx))),
                 s, NextP(al, it))
  {
    hide SectionsOk, EventsAt, Threaded, Extends, NextP, InBufs, Slot, KeyOf, FwdOf;
    var n := e.lbl.lab[key];
    var pos, vals := Pos(s, it.idx), [if n > 0 then n else 0, it.o1];
    PendKeys(e.bufs, e.lbl);
    NewPosition(al, e, s, next);
    RelSections(al, e, s, next, it, vals[0]);
    PushExtends(e.bufs, s, vals);
    PushedSlot(e.bufs, s, vals, 0);
    var bufs := e.bufs[s := e.bufs[s] + vals];
    GrowKeeps(e.bufs, bufs, e.lbl);
    RefLinkedKeeps(bufs, e.lbl, key, fwd, pos);
    var lbl := RefLinked(e.lbl, key, fwd, pos);
    EventsPushNew(al, e, s, it, vals, lbl, Event(false, key, fwd, pos));
    SectionsLabels(al, Pushed(e, s, it, vals), WithEvent(e, s, it, vals, lbl), s, NextP(al, it));
  }

  lemma PendKeys(b: Bufs, l: Labels)
    requires Threaded(b, l)
    ensures l.pend.Keys == l.lab.Keys
  {
  }

  lemma SectionsLabels(al: ActList, e: Enc, e': Enc, s: int, next: int)
    requires SectionsOk(al, e, s, next)
    requires e'.bufs == e.bufs && e'.ofs == e.ofs && e'.walk == e.walk
    ensures SectionsOk(al, e', s, next)
  {
    hide SecOk, After;
    forall i | 0 <= i < |e'.bufs| ensures SectionOk(al, e', s, next, i) {
      assert SectionOk(al, e, s, next, i);
    }
  }

  // ---------------------------------------------------------------- placing labels

  /** Position q is the first slot of a branch. */
  ghost predicate RefSlot(al: ActList, e: Enc, q: int) {
    exists i, m :: 0 <= i < |e.walk| && 0 <= m < |e.walk[i]| && IsRel(al, e.walk[i][m]) && q == Pos(i, e.walk[i][m].idx)
  }

  lemma ChainSlots(al: ActList, e: Enc, key: Key, q: int)
    requires EventsAt(al, e) && ChainOk(e.bufs, e.lbl, key) && q in ChainPos(e.lbl, key)
    ensures RefSlot(al, e, q)
  {
    var ps := ChainPos(e.lbl, key);
    var j :| 0 <= j < |ps| && ps[j] == q;
    assert Waits(e.bufs, e.lbl, key, j);
    var h := e.lbl.pend[key][j];
    assert EventAt(al, e, h);
    var (i, m) := e.at[h];
    assert IsRel(al, e.walk[i][m]);
  }

  /** Writing to the first slots of branches keeps what the put pass stored for a step. */
  lemma RewriteStored(al: ActList, e: Enc, b: Bufs, ps: seq<int>, v: int, i: nat, m: nat)
    requires Sized(e) && SameShape(e.bufs, b) && Rewritten(e.bufs, b, ps, v)
    requires forall q :: q in ps ==> RefSlot(al, e, q)
    requires i < |e.walk| && m < |e.walk[i]| && Stored(al, e.bufs[i], e.walk[i][m])
    requires |e.bufs[i]| <= BIAS
    requires forall j :: 0 <= j < |e.walk| ==> Walk(al, e.walk[j]) && EndIdx(al, e.walk[j], |e.walk[j]|) <= BIAS
    ensures Stored(al, b[i], e.walk[i][m])
  {
    var it := e.walk[i][m];
    forall x | it.idx <= x < it.idx + Slots(al, it) && !(IsRel(al, it) && x == it.idx)
      ensures b[i][x] == e.bufs[i][x]
    {
      PosParts(i, x);
      var q := Pos(i, x);
      if q in ps {
        assert RefSlot(al, e, q);
        var i2, m2 :| 0 <= i2 < |e.walk| && 0 <= m2 < |e.walk[i2]| && IsRel(al, e.walk[i2][m2])
          && q == Pos(i2, e.walk[i2][m2].idx);
        RelApart(al, e, i, m, x, i2, m2);
      }
      assert InBufs(e.bufs, q) && Slot(e.bufs, q) == e.bufs[i][x] && Slot(b, q) == b[i][x];
    }
  }

  /** The first slot of a branch is no slot of another step. */
  lemma RelApart(al: ActList, e: Enc, i: nat, m: nat, x: nat, i2: nat, m2: nat)
    requires i < |e.walk| && m < |e.walk[i]| && i2 < |e.walk| && m2 < |e.walk[i2]|
    requires Walk(al, e.walk[i]) && Walk(al, e.walk[i2])
    requires EndIdx(al, e.walk[i], |e.walk[i]|) <= BIAS && EndIdx(al, e.walk[i2], |e.walk[i2]|) <= BIAS
    requires e.walk[i][m].idx <= x < e.walk[i][m].idx + Slots(al, e.walk[i][m])
    requires IsRel(al, e.walk[i2][m2]) && !(IsRel(al, e.walk[i][m]) && x == e.walk[i][m].idx)
    ensures Pos(i, x) != Pos(i2, e.walk[i2][m2].idx)
  {
    StepBelow(al, e.walk[i], m);
    StepBelow(al, e.walk[i2], m2);
    PosParts(i, x);
    PosParts(i2, e.walk[i2][m2].idx);
    if i == i2 && m < m2 {
      IdxMonotone(al, e.walk[i], m, m2);
    } else if i == i2 && m2 < m {
      IdxMonotone(al, e.walk[i], m2, m);
    }
  }

  lemma StepBelow(al: ActList, w: seq<Step>, m: nat)
    requires Walk(al, w) && m < |w|
    ensures w[m].idx + Slots(al, w[m]) <= EndIdx(al, w, |w|)
  {
    if m + 1 < |w| {
      IdxMonotone(al, w, m, |w| - 1);
    }
  }

  lemma RewriteSections(al: ActList, e: Enc, b: Bufs, ps: seq<int>, v: int, s: int, next: int)
    requires SectionsOk(al, e, s, next) && SameShape(e.bufs, b) && Rewritten(e.bufs, b, ps, v)
    requires forall q :: q in ps ==> RefSlot(al, e, q)
    ensures SectionsOk(al, e.(bufs := b), s, next)
  {
    var e' := e.(bufs := b);
    WalksOk(al, e, s, next);
    forall i | 0 <= i < |b| ensures SectionOk(al, e', s, next, i) {
      assert SectionOk(al, e, s, next, i);
      forall m | 0 <= m < |e.walk[i]| ensures Stored(al, b[i], e.walk[i][m]) {
        RewriteStored(al, e, b, ps, v, i, m);
      }
    }
  }

  lemma WalksOk(al: ActList, e: Enc, s: int, next: int)
    requires SectionsOk(al, e, s, next)
    ensures forall j :: 0 <= j < |e.walk| ==> Walk(al, e.walk[j]) && EndIdx(al, e.walk[j], |e.walk[j]|) <= BIAS
  {
    forall j | 0 <= j < |e.walk| ensures Walk(al, e.walk[j]) && EndIdx(al, e.walk[j], |e.walk[j]|) <= BIAS {
      assert SectionOk(al, e, s, next, j);
    }
  }

  ghost predicate LabelFits(al: ActList, e: Enc, s: nat, next: int, it: Step) {
    && Sized(e) && s < |e.bufs| && |e.bufs[s]| + 1 <= BIAS
    && IsLabel(al, it) && it.p == next && it.idx == |e.bufs[s]| && it.o1 == e.ofs[s]
    && it.ev == |e.lbl.hist| && it.p < |al|
  }

  lemma LabelSections(al: ActList, e: Enc, s: nat, next: int, it: Step)
    requires SectionsOk(al, e, s, next) && LabelFits(al, e, s, next, it)
    ensures SectionsOk(al, Pushed(e, s, it, [it.o1]), s, NextP(al, it))
  {
    assert next != -1;
    assert MaxOf(al, it) == 0;
    SectionsPush(al, e, s, next, it, [it.o1]);
  }

  lemma EventsRewritten(al: ActList, e: Enc, b: Bufs)
    requires EventsAt(al, e)
    ensures EventsAt(al, e.(bufs := b))
  {
    hide IsRel, IsLabel, KeyOf, FwdOf;
    forall h | 0 <= h < |e.at| ensures EventAt(al, e.(bufs := b), h) {
      assert EventAt(al, e, h);
    }
    forall i, m | 0 <= i < |e.walk| && 0 <= m < |e.walk[i]| ensures EventOf(al, e.(bufs := b), i, m) {
      assert EventOf(al, e, i, m);
    }
  }

  /** The state with the chain of a label collapsed to v. */
  lemma CollapsedSections(al: ActList, e: Enc, s: int, next: int, key: Key, v: int, b: Bufs)
    requires SectionsOk(al, e, s, next) && EventsAt(al, e) && ChainOk(e.bufs, e.lbl, key)
    requires SameShape(e.bufs, b) && Rewritten(e.bufs, b, ChainPos(e.lbl, key), v)
    ensures SectionsOk(al, e.(bufs := b), s, next) && EventsAt(al, e.(bufs := b))
  {
    hide SectionsOk, EventsAt, ChainPos, Rewritten, RefSlot, Waits;
    forall q | q in ChainPos(e.lbl, key) ensures RefSlot(al, e, q) {
      ChainSlots(al, e, key, q);
    }
    RewriteSections(al, e, b, ChainPos(e.lbl, key), v, s, next);
    EventsRewritten(al, e, b);
  }

  lemma OneChain(b: Bufs, l: Labels, key: Key)
    requires Threaded(b, l) && key in l.pend
    ensures ChainOk(b, l, key)
  {
  }

  lemma RewrittenPush(a: Bufs, b: Bufs, c: Bufs, ps: seq<int>, v: int)
    requires Rewritten(a, b, ps, v) && Extends(b, c)
    ensures Rewritten(a, c, ps, v)
  {
  }

  /** Placing a label: `b` are the buffers with its chain collapsed. */
  lemma LabelStep(al: ActList, e: Enc, s: nat, next: int, it: Step, key: Key, b: Bufs)
    requires Good(al, e, s, next) && LabelFits(al, e, s, next, it)
    requires key in e.lbl.lab && key in e.lbl.pend && key == KeyOf(al, it)
    requires SameShape(e.bufs, b) && Rewritten(e.bufs, b, ChainPos(e.lbl, key), Pos(s, it.idx))
    ensures Good(al, WithEvent(e.(bufs := b), s, it, [it.o1], LabelPlaced(e.lbl, key, Pos(s, it.idx))),
                 s, NextP(al, it))
  {
    hide SectionsOk, EventsAt, Threaded, Extends, NextP, InBufs, Slot, Rewritten, ChainPos, KeyOf;
    var pos, vals := Pos(s, it.idx), [it.o1];
    NewPosition(al, e, s, next);
    OneChain(e.bufs, e.lbl, key);
    CollapsedSections(al, e, s, next, key, pos, b);
    var e1 := e.(bufs := b);
    LabelSections(al, e1, s, next, it);
    PushExtends(b, s, vals);
    PushedSlot(b, s, vals, 0);
    var bufs := b[s := b[s] + vals];
    RewrittenPush(e.bufs, b, bufs, ChainPos(e.lbl, key), pos);
    PlacedKeeps(e.bufs, bufs, e.lbl, key, pos);
    var lbl := LabelPlaced(e.lbl, key, pos);
    EventsPushNew(al, e1, s, it, vals, lbl, Event(true, key, false, pos));
    SectionsLabels(al, Pushed(e1, s, it, vals), WithEvent(e1, s, it, vals, lbl), s, NextP(al, it));
  }
}

/** The DynASM x86 encoding engine: put, link and encode passes over section buffers. */
module DasmEncoder {
  import opened DasmLayout
  import opened DasmLabels
  import opened DasmWalk
  import opened DasmState
  import opened DasmTrace
  import opened DasmFlat
  import opened DasmLink

  // ---------------------------------------------------------------- chains

  lemma {:induction false} ChainIncreasing(b: Bufs, l: Labels, key: Key, i: nat, j: nat)
    requires ChainOk(b, l, key) && i < j < |l.pend[key]|
    ensures l.pend[key][i] < l.pend[key][j]
    decreases j
  {
    assert Waits(b, l, key, j);
    if i + 1 < j {
      ChainIncreasing(b, l, key, i, j - 1);
    }
  }

  /** What the chain of a label looks like: distinct positions, each holding the one before. */
  lemma ChainShape(b: Bufs, l: Labels, key: Key, j: nat)
    requires EventsOk(b, l) && ChainOk(b, l, key) && j < |l.pend[key]|
    ensures var ps := ChainPos(l, key);
            && InBufs(b, ps[j]) && ps[j] > 0 && ps[j] !in ps[j + 1..]
            && Slot(b, ps[j]) == if j == 0 then 0 else ps[j - 1]
  {
    var ps := ChainPos(l, key);
    assert Waits(b, l, key, j);
    if j > 0 {
      assert Waits(b, l, key, j - 1);
    }
    forall k | j < k < |ps| ensures ps[k] != ps[j] {
      assert Waits(b, l, key, k);
      ChainIncreasing(b, l, key, j, k);
    }
  }

  lemma ChainKey(b: Bufs, l: Labels, key: Key)
    requires ChainOk(b, l, key)
    ensures key in l.pend
  {
  }

  lemma ChainHead(l: Labels, key: Key)
    requires TablesOk(l) && key in l.lab
    ensures key in l.pend
    ensures var ps := ChainPos(l, key);
            if l.lab[key] > 0 then |ps| > 0 && l.lab[key] == ps[|ps| - 1] else ps == []
  {
    assert TableOk(l, key);
  }

  /** A label table with one entry for every local, global and PC label. */
  function Table<T>(lgsize: nat, pcsize: nat, v: T): (t: map<Key, T>)
    ensures forall i: nat :: LG(i) in t <==> i < lgsize
    ensures forall i: nat :: PC(i) in t <==> i < pcsize
    ensures forall k :: k in t ==> t[k] == v
  {
    (map i: nat | i < lgsize :: LG(i) := v) + (map i: nat | i < pcsize :: PC(i) := v)
  }

  lemma SameKeys(lgsize: nat, pcsize: nat)
    ensures Table<int>(lgsize, pcsize, 0).Keys == Table<seq<nat>>(lgsize, pcsize, []).Keys
  {
    var a, b := Table<int>(lgsize, pcsize, 0), Table<seq<nat>>(lgsize, pcsize, []);
    forall k: Key ensures k in a <==> k in b {
      match k {
        case LG(_) =>
        case PC(_) =>
      }
    }
  }

  lemma FreshGood(al: ActList, e: Enc)
    requires Sized(e) && e.at == [] && e.lbl.hist == [] && e.lbl.bind == map[] && e.lbl.last == map[]
    requires forall i :: 0 <= i < |e.bufs| ==> e.bufs[i] == [] && e.ofs[i] == 0 && e.walk[i] == []
    requires e.lbl.pend.Keys == e.lbl.lab.Keys
    requires forall k :: k in e.lbl.lab ==> e.lbl.lab[k] == 0 && e.lbl.pend[k] == []
    ensures Good(al, e, 0, -1)
  {
  }

  class Encoder {
    const al: ActList
    var bufs: Bufs
    var ofs: seq<int>
    var lab: map<Key, int>      // lglabels and pclabels
    var section: nat
    var status: Status
    var codesize: int
    const lgsize: nat
    const pcsize: nat
    ghost var marked: Bufs      // the buffers when the link pass starts to shrink
    ghost var walk: seq<seq<Step>>
    ghost var lbl: Labels
    ghost var at: seq<(nat, nat)>

    ghost function View(): Enc
      reads this
    {
      Enc(bufs, ofs, walk, lbl, at)
    }

    /** What the calls so far have appended. */
    ghost function Now(): Trace
      reads this
    {
      TraceOf(View(), section)
    }

    ghost function Lim(): Limits
      reads this
    {
      Limits(lgsize, pcsize, |bufs|)
    }

    ghost predicate Inside(next: int)
      reads this
    {
      && ListOk(al) && lab == lbl.lab && |bufs| == |ofs| == |walk| && section < |bufs|
      && lgsize >= 10
      && (forall i: nat :: LG(i) in lab <==> i < lgsize) && (forall i: nat :: PC(i) in lab <==> i < pcsize)
      && lab[LG(0)] <= 0
      && Good(al, View(), section, next)
    }

    /** Between two puts. */
    ghost predicate Valid()
      reads this
    {
      Inside(-1)
    }

    /** A fresh encoder for an action list, with all sections empty and no label used. */
    constructor (al: ActList, maxsection: nat, lgsize: nat, pcsize: nat)
      requires ListOk(al) && maxsection > 0 && lgsize >= 10
      ensures this.al == al && Valid() && status.Ok? && section == 0
      ensures |bufs| == maxsection && this.lgsize == lgsize && this.pcsize == pcsize
      ensures Now() == Fresh(Lim())
    {
      hide Good, ListOk;
      this.al, this.lgsize, this.pcsize := al, lgsize, pcsize;
      bufs := seq(maxsection, _ => []);
      ofs := seq(maxsection, _ => 0);
      lab := Table(lgsize, pcsize, 0);
      section, status, codesize := 0, Ok, 0;
      walk := seq(maxsection, _ => []);
      at, marked := [], [];
      lbl := Labels(Table(lgsize, pcsize, 0), [], map[], Table(lgsize, pcsize, []), map[]);
      new;
      assert lbl.pend.Keys == lbl.lab.Keys by { SameKeys(lgsize, pcsize); }
      FreshGood(al, View());
    }

    /** Overwrite every slot of a chain with v. */
    method Collapse(head: int, v: int, ghost key: Key)
      requires EventsOk(bufs, lbl) && ChainOk(bufs, lbl, key) && TablesOk(lbl)
      requires key in lbl.lab && head == lbl.lab[key]
      modifies this`bufs
      ensures SameShape(old(bufs), bufs)
      ensures Rewritten(old(bufs), bufs, ChainPos(lbl, key), v)
    {
      hide EventsOk, ChainOk, TablesOk, ChainPos, InBufs, Slot, SetSlot;
      ChainKey(bufs, lbl, key);
      ChainHead(lbl, key);
      ghost var ps := ChainPos(lbl, key);
      ghost var j := |ps|;
      var n := head;
      while n > 0
        invariant 0 <= j <= |ps|
        invariant if n > 0 then j > 0 && n == ps[j - 1] else j == 0
        invariant SameShape(old(bufs), bufs)
        invariant Rewritten(old(bufs), bufs, ps[j..], v)
        decreases j
      {
        ChainShape(old(bufs), lbl, key, j - 1);
        RewriteOne(old(bufs), bufs, ps, j, v);
        SetSlotReads(bufs, n, v);
        var pb := n;
        n := Slot(bufs, pb);
        bufs := SetSlot(bufs, pb, v);
        j := j - 1;
        ChainPositive(old(bufs), lbl, key, j);
      }
    }

    lemma InsideParts(next: int)
      requires Inside(next)
      ensures ListOk(al) && lab == lbl.lab && |bufs| == |ofs| == |walk| && section < |bufs| && lgsize >= 10
      ensures forall i: nat :: LG(i) in lab <==> i < lgsize
      ensures forall i: nat :: PC(i) in lab <==> i < pcsize
      ensures Good(al, View(), section, next)
    {
    }

    /** Append a step without label event: its buffer values and its worst-case size. */
    method Append(start: bool, p: nat, n: int, vals: seq<int>, size: int, ghost next: int)
      requires Inside(next) && p < |al|
      requires var it := NewStep(al, View(), section, start, p, n, -1);
               && !IsRel(al, it) && !IsLabel(al, it) && MaxOf(al, it) == size && size >= 0
               && |vals| == Slots(al, it) && |bufs[section]| + |vals| <= BIAS
               && Stored(al, bufs[section] + vals, it)
      requires if next == -1 then start && StartOk(al, p) else !start && p == next
      modifies this`bufs, this`ofs, this`walk
      ensures Inside(NextP(al, Step(start, p, n, 0, 0, -1)))
      ensures Now() == Advance(al, old(Now()), start, p, n) && |bufs| == old(|bufs|)
      ensures |bufs[section]| == old(|bufs[section]|) + |vals|
    {
      hide Good, Stored, MaxOf, Slots, StartOk, IsRel, IsLabel, NextP, ListOk, Advance, MarksOf;
      ghost var it := NewStep(al, View(), section, start, p, n, -1);
      PushGood(al, View(), section, next, it, vals);
      PlainAdvances(al, View(), section, next, it, vals);
      bufs := bufs[section := bufs[section] + vals];
      ofs := ofs[section := ofs[section] + size];
      walk := walk[section := walk[section] + [it]];
    }

    /** Append a step with a label event. */
    method PushEvent(ghost it: Step, vals: seq<int>, size: int, lab': map<Key, int>, ghost lbl': Labels,
                     ghost next: int)
      requires section < |bufs| == |ofs| == |walk| && ListOk(al) && lgsize >= 10
      requires it.o1 == ofs[section] + size && lab' == lbl'.lab && LG(0) in lab' && lab'[LG(0)] <= 0
      requires forall i: nat :: LG(i) in lab' <==> i < lgsize
      requires forall i: nat :: PC(i) in lab' <==> i < pcsize
      requires Good(al, WithEvent(View(), section, it, vals, lbl'), section, next)
      modifies this`bufs, this`ofs, this`walk, this`lab, this`lbl, this`at
      ensures Inside(next) && View() == WithEvent(old(View()), section, it, vals, lbl')
    {
      hide Good, ListOk;
      bufs := bufs[section := bufs[section] + vals];
      ofs := ofs[section := ofs[section] + size];
      walk, at := walk[section := walk[section] + [it]], at + [(section, |walk[section]|)];
      lab, lbl := lab', lbl';
    }

    /** Refer to a label: store its position if it is placed, else link to its chain. */
    method PutRel(p: nat, n: int, key: Key, fwd: bool)
      requires Inside(p) && p < |al| && al[p].Rel() && key in lab
      requires |bufs[section]| + 2 <= BIAS
      requires if fwd then key.Local() else key.Local() ==> lab[key] < 0
      requires var it := Step(false, p, n, 0, 0, -1); key == KeyOf(al, it) && fwd == FwdOf(al, it)
      modifies this`bufs, this`ofs, this`walk, this`lab, this`lbl, this`at
      ensures Inside(p + 1)
      ensures Now() == Advance(al, old(Now()), false, p, n) && |bufs| == old(|bufs|)
      ensures |bufs[section]| == old(|bufs[section]|) + 2
    {
      hide Good, NextP, ListOk, Lift, MaxOf, Advance, MarksOf, KeyOf, FwdOf, IsRel, RelFits;
      var s := section;
      var pos := Pos(s, |bufs[s]|);
      var m := lab[key];
      ghost var it := NewStep(al, View(), s, false, p, n, |lbl.hist|);
      RelStepFits(al, View(), s, p, n);
      var end := ofs[s] + 4;  // maximum offset needed
      if !fwd && m < 0 {
        RefBoundStep(al, View(), s, p, it, key);
        BoundAdvances(al, View(), s, p, it, [-m, end], key);
        PushEvent(it, [-m, end], 4, lab, RefBound(lbl, key, pos), p + 1);
      } else {
        RefLinkedStep(al, View(), s, p, it, key, fwd);
        var link := if m > 0 then m else 0;
        LinkedAdvances(al, View(), s, p, it, [link, end], key, fwd);
        PushEvent(it, [link, end], 4, lab[key := pos], RefLinked(lbl, key, fwd, pos), p + 1);
      }
    }

    /** Place a label: collapse its chain and record its position. */
    method PutLabel(p: nat, n: int, key: Key)
      requires Inside(p) && p < |al| && al[p].Label() && key in lab
      requires |bufs[section]| + 1 <= BIAS
      requires key == KeyOf(al, Step(false, p, n, 0, 0, -1))
      modifies this`bufs, this`ofs, this`walk, this`lab, this`lbl, this`at
      ensures Inside(p + 1)
      ensures Now() == Advance(al, old(Now()), false, p, n) && |bufs| == old(|bufs|)
      ensures |bufs[section]| == old(|bufs[section]|) + 1
    {
      hide Good, NextP, ListOk, Lift, MaxOf, Rewritten, Threaded, EventsOk, ChainOk, TablesOk, ChainPos, LabelFits,
           Advance, MarksOf, KeyOf, IsLabel;
      var s := section;
      var pos := Pos(s, |bufs[s]|);
      ghost var it := NewStep(al, View(), s, false, p, n, |lbl.hist|);
      LabelStepFits(al, View(), s, p, n);
      ThreadedParts(bufs, lbl, key);
      Collapse(lab[key], pos, key);
      LabelStep(al, old(View()), s, p, it, key, bufs);
      LabelAdvances(al, old(View()), s, p, it, [ofs[s]], key, bufs);
      PushEvent(it, [ofs[s]], 0, lab[key := -pos], LabelPlaced(lbl, key, pos), p + 1);  // label exists now
    }

    /** Immediate operands and space: store the argument, reserve the worst-case size. */
    method PutArg(p: nat, n: int)
      requires Inside(p) && status.Ok? && p < |al| && (al[p].Imm? || (al[p].Space? && n >= 0))
      requires |bufs[section]| + 1 <= BIAS
      modifies this`bufs, this`ofs, this`walk, this`status
      ensures status == Fault(Lim(), al[p], n, old(Now()).marks)
      ensures status.Ok? ==>
                && Inside(p + 1) && Now() == Advance(al, old(Now()), false, p, n) && |bufs| == old(|bufs|)
                && |bufs[section]| == old(|bufs[section]|) + 1
    {
      hide Good, ListOk, Inside, Advance, MarksOf;
      if al[p].Imm? {
        var kind := al[p].kind;
        var size := 4;
        match kind {
          case ImmDB => if Int8(n) { size := 1; }
          case ImmD =>
          case ImmS => if !Int8(n) { status := RangeI; return; } size := 1;
          case ImmB => if !(0 <= n < 0x100) { status := RangeI; return; } size := 1;
          case ImmWB =>
            if Int8(n) { size := 1; } else { if !(0 <= n < 0x10000) { status := RangeI; return; } size := 2; }
          case ImmW => if !(0 <= n < 0x10000) { status := RangeI; return; } size := 2;
        }
        Append(false, p, n, [n], size, p);
      } else {
        Append(false, p, n, [n], n, p);
      }
    }

    /** References and label placements, with the range checks of the checked build. */
    method PutLabelAction(p: nat, n: int)
      requires Inside(p) && status.Ok? && p < |al| && (al[p].Rel() || al[p].Label())
      requires |bufs[section]| + (if al[p].Rel() then 2 else 1) <= BIAS
      requires !TakesArg(al[p]) ==> n == 0
      modifies this`bufs, this`ofs, this`walk, this`lab, this`lbl, this`at, this`status
      ensures status == Fault(old(Lim()), al[p], n, old(Now()).marks)
      ensures status.Ok? ==>
                && Inside(p + 1) && Now() == Advance(al, old(Now()), false, p, n) && |bufs| == old(|bufs|)
                && |bufs[section]| == old(|bufs[section]|) + (if al[p].Rel() then 2 else 1)
    {
      hide Good, ListOk, Pos, NewStep, Inside, Advance, MarksOf;
      InsideParts(p);
      match al[p] {
        case RelLG(i) =>
          if i <= 246 {  // backward reference or global
            var key := LG(i);
            PlacedIs(lab, key);
            if i < 10 && lab[key] >= 0 { status := RangeLG; return; }
            if key !in lab { status := RangeLG; return; }
            PutRel(p, 0, key, false);
          } else {
            PutRel(p, 0, LG(i - 246), true);
          }
        case RelPC =>
          if n < 0 || PC(n) !in lab { status := RangePC; return; }
          PutRel(p, n, PC(n), false);
        case LabelLG(i) =>
          if LG(i) !in lab { status := RangeLG; return; }
          PutLabel(p, 0, LG(i));
        case LabelPC =>
          if n < 0 || PC(n) !in lab { status := RangePC; return; }
          PutLabel(p, n, PC(n));
      }
    }

    /** The start of a put. */
    method PutStart(start: nat)
      requires Valid() && StartOk(al, start) && |bufs[section]| + 1 <= BIAS
      modifies this`bufs, this`ofs, this`walk
      ensures Inside(start)
      ensures Now() == Advance(al, old(Now()), true, start, 0) && |bufs| == old(|bufs|)
      ensures |bufs[section]| == old(|bufs[section]|) + 1
    {
      hide Good, ListOk, Advance, MarksOf;
      Append(true, start, 0, [start], 0, -1);
    }

    /** Bytes, alignment and the end of a put. */
    method PutPlain(p: nat)
      requires Inside(p) && p < |al| && (al[p].Literal() || al[p].Align? || al[p].Ends())
      requires |bufs[section]| + (if al[p].Align? then 1 else 0) <= BIAS
      modifies this`bufs, this`ofs, this`walk
      ensures Inside(if al[p].Ends() then -1 else p + 1)
      ensures Now() == Advance(al, old(Now()), false, p, 0) && |bufs| == old(|bufs|)
      ensures |bufs[section]| == old(|bufs[section]|) + (if al[p].Align? then 1 else 0)
    {
      hide Good, ListOk, Advance, MarksOf;
      if al[p].Align? {
        var mask := al[p].mask as int;
        Append(false, p, 0, [ofs[section] + mask], mask, p);
      } else {
        Append(false, p, 0, [], if al[p].Ends() then 0 else 1, p);
      }
    }

    /** One action of a put, except its end. */
    method PutAction(p: nat, args: seq<int>) returns (rest: seq<int>)
      requires Inside(p) && status.Ok? && p < |al| && !al[p].Ends()
      requires PutOk(al, p, args, BIAS - |bufs[section]|)
      modifies this`bufs, this`ofs, this`walk, this`lab, this`lbl, this`at, this`status
      ensures rest == ArgsAfter(al[p], args)
      ensures status == Fault(old(Lim()), al[p], ArgFor(al[p], args), old(Now()).marks)
      ensures status.Ok? ==>
                && Inside(p + 1) && Now() == Advance(al, old(Now()), false, p, ArgFor(al[p], args))
                && |bufs| == old(|bufs|) && PutOk(al, p + 1, rest, BIAS - |bufs[section]|)
    {
      hide Good, ListOk, Inside, Advance, MarksOf, MarksOn;
      rest := if TakesArg(al[p]) then args[1..] else args;
      if al[p].Imm? || al[p].Space? {
        PutArg(p, args[0]);
      } else if al[p].Rel() || al[p].Label() {
        PutLabelAction(p, if TakesArg(al[p]) then args[0] else 0);
      } else {
        PutPlain(p);
      }
    }

    /** dasm_put: one block of the action list goes into the current section, with its
        arguments; labels and references are threaded, offsets are upper bounds. */
    method Put(start: nat, args: seq<int>)
      requires Valid() && status.Ok? && StartOk(al, start)
      requires PutOk(al, start, args, BIAS - |bufs[section]| - 1)
      modifies this`bufs, this`ofs, this`walk, this`lab, this`lbl, this`at, this`status, this`section
      ensures status == PutTrace(al, old(Lim()), old(Now()), start, args).0
      ensures status.Ok? ==>
                Valid() && |bufs| == old(|bufs|) && Now() == PutTrace(al, old(Lim()), old(Now()), start, args).1
    {
      hide Good, ListOk, PutOk, StartOk, Advance, Inside, MarksOf;
      InsideParts(-1);
      PutOkFacts(al, start, args, BIAS - |bufs[section]| - 1);
      PutStart(start);
      var p, rest := start, args;
      while !al[p].Ends()
        invariant p < |al| && section == old(section) && status.Ok? && Inside(p) && |bufs| == old(|bufs|)
        invariant section < |bufs| && |bufs[section]| <= BIAS
        invariant PutOk(al, p, rest, BIAS - |bufs[section]|)
        invariant PutRun(al, Lim(), Now(), p, rest) == PutTrace(al, Lim(), old(Now()), start, args)
        decreases |al| - p
      {
        rest := PutAction(p, rest);
        if !status.Ok? { return; }
        p := p + 1;
        PutOkFacts(al, p, rest, BIAS - |bufs[section]|);
      }
      if al[p].Section? && al[p].n >= |bufs| {
        status := RangeSec;
        return;
      }
      PutPlain(p);
      if al[p].Section? {
        EnterSection(al[p].n);
      }
    }

    /** Continue with section s. */
    method EnterSection(s: nat)
      requires Valid() && s < |bufs|
      modifies this`section
      ensures Valid() && Now() == old(Now()).(section := s)
    {
      hide Good, ListOk, MarksOf;
      SwitchSection(al, View(), section, s);
      section := s;
    }

    /** Forget local label i, which is not pending. */
    method Forget(i: nat)
      requires Valid() && 1 <= i <= 9 && LG(i) in lab && lab[LG(i)] <= 0
      modifies this`lab, this`lbl
      ensures Valid() && lab == old(lab)[LG(i) := 0]
      ensures Now() == old(Now()).(marks := MarksOf(lab))
    {
      hide Good, ListOk, MarksOf;
      ForgetKeeps(al, View(), section, LG(i));
      lab := lab[LG(i) := 0];
      lbl := lbl.(lab := lbl.lab[LG(i) := 0]);
    }

    lemma NoLocals()
      requires Valid() && Now().marks.pending * Locals(10) == {}
      ensures forall i: nat :: i < 10 ==> LG(i) in lab && lab[LG(i)] <= 0
    {
      hide Good, ListOk;
      forall i: nat | i < 10 ensures LG(i) in lab && lab[LG(i)] <= 0 {
        PlacedIs(lab, LG(i));
        assert i >= 1 && LG(i) in Now().marks.pending ==> LG(i) in Now().marks.pending * Locals(10);
      }
    }

    /** Between isolated encoding steps: no local label may be pending; all are forgotten. */
    method CheckStep(secmatch: int)
      requires status.Ok? ==> Valid()
      modifies this`lab, this`lbl, this`status
      ensures !old(status).Ok? ==> status == old(status)
      ensures old(status).Ok? ==> status == CheckTrace(old(Now()), secmatch).0
      ensures status.Ok? ==> Valid() && Now() == CheckTrace(old(Now()), secmatch).1
      ensures status.Ok? ==> forall i: nat :: i < 10 ==> LG(i) in lab && lab[LG(i)] <= 0
    {
      hide Inside, MarksOf, Locals, Forgot, CheckTrace, Good, ListOk;
      if !status.Ok? { return; }
      ghost var t := Now();
      InsideParts(-1);
      ForgotNone(t);
      var i := 1;
      while i <= 9
        invariant 1 <= i <= 10 && status.Ok? && Valid() && Forgot(t, Now(), i)
        invariant lab == lbl.lab && forall j: nat :: j < 10 ==> LG(j) in lab
      {
        if lab[LG(i)] > 0 {
          ForgotPending(t, Now(), lab, i, secmatch);
          status := UndefL;
          return;
        }
        ForgotNext(t, Now(), lab, i);
        Forget(i);
        InsideParts(-1);
        i := i + 1;
      }
      ForgotAll(t, Now(), secmatch);
      NoLocals();
      if secmatch >= 0 && section != secmatch {
        status := MatchSec;
      }
    }

    /** Replace the chains of globals not defined here by their negative markers. */
    method MarkGlobals()
      requires Valid()
      requires forall key :: key in lab && !Global(key, lgsize) ==> lab[key] <= 0
      modifies this`bufs
      ensures Ready(al, View(), lgsize)
    {
      hide Good, ListOk, SectionsOk, EventsAt, Marking, ChainPos, Rewritten, TablesOk, EventsOk, ChainOk, AllMarked;
      SwitchSection(al, View(), section, 0);
      GoodParts(al, View(), 0);
      MarkingStarts(bufs, lbl);
      var i := 10;
      while i < lgsize
        invariant 10 <= i <= lgsize
        invariant SectionsOk(al, View(), 0, -1) && EventsAt(al, View()) && Marking(bufs, lbl, i)
      {
        MarkingParts(bufs, lbl, i);
        ghost var e := View();
        Collapse(lab[LG(i)], -(i as int), LG(i));
        MarkKeeps(e.bufs, bufs, lbl, i);
        CollapsedSections(al, e, 0, -1, LG(i), -(i as int), bufs);
        i := i + 1;
      }
      MarkingEnds(bufs, lbl, lgsize);
    }

    /** The link pass has reached step k of the program of e. */
    ghost predicate Linker(e: Enc, k: int)
      reads this
    {
      && Ready(al, e, lgsize) && e.walk == walk && e.ofs == ofs && |e.bufs| == |bufs| == |ofs| == |walk|
      && Linking(al, e, Program(al, e), bufs, k)
    }

    /** Cumulative worst-case size of sections lo to hi - 1. */
    method SumOfs(lo: nat, hi: nat) returns (sum: int)
      requires lo <= hi <= |ofs|
      ensures sum == OfsBase(ofs, hi) - OfsBase(ofs, lo)
    {
      sum := 0;
      for i := lo to hi
        invariant sum == OfsBase(ofs, i) - OfsBase(ofs, lo)
      {
        sum := sum + ofs[i];
      }
    }

    /** How many bytes the branch at buffer index `idx` of section s can be shortened by. */
    method LinkRel(ghost e: Enc, s: nat, ghost m: nat, p: nat, idx: nat, cur: int) returns (shrink: int)
      requires s < |walk| && m < |walk[s]| && Linker(e, Base(walk, s) + m)
      requires IsRel(al, walk[s][m]) && p == walk[s][m].p && idx == walk[s][m].idx
      requires var g := Base(walk, s) + m; g < |Program(al, e)| && cur == OfsBase(ofs, s) - Cut(Program(al, e), g)
      ensures shrink == ItemCut(Program(al, e), Base(walk, s) + m)
    {
      hide ListOk, SectionsOk, EventsAt, AllMarked, Program, Linking, Cut, ItemCut, WellFormed, Base, Distance,
        InBufs, Slot;
      ghost var f, g := Program(al, e), Base(walk, s) + m;
      ReadyProgram(al, e, lgsize);
      StepView(al, e, bufs, g, s, m);
      CutOf(f, g);
      RelView(al, e, bufs, s, m, g);
      var op := Op(al, p);
      shrink := if op == 0xe9 then 3 else if op / 16 == 8 then 4 else 0;
      if shrink != 0 {
        var lpos := bufs[s][idx];
        if lpos < 0 {
          NoTarget(al, e, g);
          shrink := 0;
        } else {
          ghost var t := Target(f, g);
          ResolvedTarget(f, g);
          ghost var s', m' := LabelRead(al, e, bufs, g, g, t);
          DistanceRead(al, e, bufs, s, m, t, s', cur);
          var lofs := Slot(bufs, lpos);
          if lpos > Pos(s, idx) {  // forward label: add cumulative section offsets
            OrderedSections(al, e, s, m, s', m');
            var sum := SumOfs(s, lpos / BIAS);
            lofs := lofs + sum;
          } else {                 // backward label: unfix offset
            lofs := lofs - cur;
          }
          lofs := lofs - bufs[s][idx + 1];
          if !(-128 - shrink <= lofs <= 127) {
            shrink := 0;
          }
        }
      }
    }

    /** The link pass is in section s in front of step m, at buffer index `idx`, and adds
        `cur` to worst-case offsets of the section to make them final. */
    ghost predicate LinkAt(e: Enc, s: nat, m: nat, idx: int, cur: int)
      reads this
    {
      && s < |walk| && m <= |walk[s]| && Linker(e, Base(walk, s) + m)
      && Base(walk, s) + m <= |Program(al, e)|
      && idx == EndIdx(al, walk[s], m) && cur == OfsBase(ofs, s) - Cut(Program(al, e), Base(walk, s) + m)
    }

    /** The link pass over one action: fix label offsets, shrink branches, adjust aligns. */
    method LinkAction(ghost e: Enc, s: nat, ghost m: nat, p: nat, idx: nat, cur: int) returns (idx': nat, cur': int)
      requires LinkAt(e, s, m, idx, cur) && m < |walk[s]| && p < |al| && p == After(al, walk[s], m)
      modifies this`bufs
      ensures LinkAt(e, s, m + 1, idx', cur')
      ensures After(al, walk[s], m + 1) == if al[p].Ends() then -1 else p + 1
    {
      hide ListOk, SectionsOk, EventsAt, AllMarked, Program, Linking, Cut, ItemCut, WellFormed, Base, Distance;
      ghost var f, g, it := Program(al, e), Base(walk, s) + m, walk[s][m];
      ReadyProgram(al, e, lgsize);
      StepView(al, e, bufs, g, s, m);
      CutOf(f, g);
      CutNext(f, g);
      idx', cur' := idx + Slots(al, Step(false, p, 0, 0, 0, -1)), cur;
      if al[p].Rel() {
        var shrink := LinkRel(e, s, m, p, idx, cur);
        LinkWrites(al, e, f, bufs, s, m);
        bufs := bufs[s := bufs[s][idx + 1 := shrink]];
        cur' := cur - shrink;
      } else if al[p].Label() {
        LabelSize(f, g);
        LinkWrites(al, e, f, bufs, s, m);
        bufs := bufs[s := bufs[s][idx := bufs[s][idx] + cur]];
      } else {
        LinkSkips(al, e, f, bufs, s, m);
        if al[p].Align? {
          cur' := cur - (bufs[s][idx] + cur) % (al[p].mask as int + 1);
        }
      }
    }

    /** The start of a put takes one buffer position. */
    lemma LinkStart(e: Enc, s: nat, m: nat, idx: int, cur: int)
      requires LinkAt(e, s, m, idx, cur) && m < |walk[s]| && After(al, walk[s], m) == -1
      ensures s < |bufs| && 0 <= idx < |bufs[s]| && bufs[s][idx] == After(al, walk[s], m + 1) >= 0
      ensures LinkAt(e, s, m + 1, idx + 1, cur)
    {
      hide ListOk, SectionsOk, EventsAt, AllMarked, Program, Linking, Cut, ItemCut, WellFormed, Base, Distance;
      var f, g := Program(al, e), Base(walk, s) + m;
      ReadyProgram(al, e, lgsize);
      StepView(al, e, bufs, g, s, m);
      CutOf(f, g);
      CutNext(f, g);
      LinkSkips(al, e, f, bufs, s, m);
    }

    lemma LinkSection(e: Enc, s: nat, m: nat, idx: int, cur: int)
      requires LinkAt(e, s, m, idx, cur)
      ensures s < |walk| == |bufs| == |ofs| && m <= |walk[s]|
      ensures After(al, walk[s], m) != -1 ==> m < |walk[s]| && 0 <= After(al, walk[s], m) < |al|
      ensures After(al, walk[s], m) == -1 ==> s < |bufs| && (idx == |bufs[s]| <==> m == |walk[s]|)
    {
      if After(al, walk[s], m) != -1 {
        WalkGoesOn(al, e, s, m);
        StepView(al, e, bufs, Base(walk, s) + m, s, m);
      } else {
        WalkEnds(al, e, s, m);
      }
    }

    /** The link pass over one put. */
    method LinkPut(ghost e: Enc, s: nat, ghost m0: nat, idx0: nat, cur0: int) returns (idx: nat, cur: int, ghost m: nat)
      requires LinkAt(e, s, m0, idx0, cur0) && m0 < |walk[s]| && After(al, walk[s], m0) == -1
      modifies this`bufs
      ensures m0 < m && LinkAt(e, s, m, idx, cur) && After(al, walk[s], m) == -1
    {
      hide LinkAt, After;
      LinkStart(e, s, m0, idx0, cur0);
      LinkSection(e, s, m0 + 1, idx0 + 1, cur0);
      var p := bufs[s][idx0];
      idx, cur, m := idx0 + 1, cur0, m0 + 1;
      while true
        invariant m0 < m && LinkAt(e, s, m, idx, cur) && s < |walk| && p == After(al, walk[s], m)
        invariant m < |walk[s]| && 0 <= p < |al|
        decreases |walk[s]| - m
      {
        var ends := al[p].Ends();
        idx, cur := LinkAction(e, s, m, p, idx, cur);
        p, m := p + 1, m + 1;
        if ends { return; }
        LinkSection(e, s, m, idx, cur);
      }
    }

    /** The link pass is over: the buffers hold final offsets and shrinks, and the code size
        is the final offset at the end of the program. */
    ghost predicate Linked()
      reads this
    {
      var e := View().(bufs := marked);
      Sized(e) && Linker(e, |Program(al, e)|) && codesize == Fin(Program(al, e), |Program(al, e)|)
    }

    /** Pass 2: link sections, shrink branches and aligns, fix label offsets. */
    method Link() returns (res: Status)
      requires status.Ok? ==> Valid() && forall i: nat :: i < 10 && LG(i) in lab ==> lab[LG(i)] <= 0
      modifies this`bufs, this`codesize, this`marked
      ensures !status.Ok? ==> res == status
      ensures status.Ok? ==> (res.UndefPC? <==> exists i: nat :: PC(i) in lab && lab[PC(i)] > 0)
      ensures status.Ok? && !res.UndefPC? ==> res.Ok?
      ensures res.Ok? ==> Linked()
    {
      hide Inside, Linked, Ready;
      if !status.Ok? { return status; }
      LabelKeys();
      var pc := 0;
      while pc < pcsize
        invariant 0 <= pc <= pcsize
        invariant forall i: nat :: i < pc && PC(i) in lab ==> lab[PC(i)] <= 0
      {
        if lab[PC(pc)] > 0 { return UndefPC; }
        pc := pc + 1;
      }
      assert forall key :: key in lab && !Global(key, lgsize) ==> lab[key] <= 0;
      MarkGlobals();
      LinkSections();
      res := Ok;
    }

    lemma LabelKeys()
      requires Valid()
      ensures lgsize >= 10
      ensures forall i: nat :: LG(i) in lab <==> i < lgsize
      ensures forall i: nat :: PC(i) in lab <==> i < pcsize
    {
    }

    method LinkSections()
      requires Ready(al, View(), lgsize)
      modifies this`bufs, this`codesize, this`marked
      ensures Linked()
    {
      hide LinkAt, Ready, Program, Linking, Fin;
      ghost var e := View();
      marked := bufs;
      SectionsBegin(e);
      var cur := 0;
      for s := 0 to |bufs|
        invariant View().(bufs := marked) == e && |bufs| == |walk| == |ofs|
        invariant Between(e, s, cur)
      {
        SectionBegins(e, s, cur);
        var idx := 0;
        ghost var m := 0;
        while idx != |bufs[s]|
          invariant View().(bufs := marked) == e && |bufs| == |walk| == |ofs| && s < |walk|
          invariant LinkAt(e, s, m, idx, cur) && After(al, walk[s], m) == -1
          decreases |walk[s]| - m
        {
          LinkSection(e, s, m, idx, cur);
          idx, cur, m := LinkPut(e, s, m, idx, cur);
          LinkSection(e, s, m, idx, cur);
        }
        SectionEnds(e, s, m, idx, cur);
        cur := cur + ofs[s];
      }
      codesize := cur;
      SectionsEnd(e, cur);
    }

    /** The link pass is between sections, with `cur` bytes in front of section s. */
    ghost predicate Between(e: Enc, s: nat, cur: int)
      reads this
    {
      && s <= |walk| && Linker(e, Base(walk, s)) && Base(walk, s) <= |Program(al, e)|
      && cur == OfsBase(ofs, s) - Cut(Program(al, e), Base(walk, s))
    }

    lemma SectionsBegin(e: Enc)
      requires Ready(al, e, lgsize) && e == View()
      ensures Between(e, 0, 0) && |bufs| == |walk| == |ofs|
    {
      LinkStarts(al, e);
    }

    lemma SectionBegins(e: Enc, s: nat, cur: int)
      requires Between(e, s, cur) && s < |walk|
      ensures LinkAt(e, s, 0, 0, cur) && After(al, walk[s], 0) == -1
    {
    }

    lemma SectionEnds(e: Enc, s: nat, m: nat, idx: int, cur: int)
      requires LinkAt(e, s, m, idx, cur) && After(al, walk[s], m) == -1 && s < |bufs| && idx == |bufs[s]| && s < |ofs|
      ensures Between(e, s + 1, cur + ofs[s])
    {
      LinkSection(e, s, m, idx, cur);
    }

    lemma SectionsEnd(e: Enc, cur: int)
      requires Between(e, |walk|, cur)
      ensures Linker(e, |Program(al, e)|) && cur == Fin(Program(al, e), |Program(al, e)|)
    {
      ReadyProgram(al, e, lgsize);
      SectionStarts(al, e, |walk|, |walk|);
    }

    /** The encode pass is in section s in front of step m, at buffer index `idx`. */
    ghost predicate EncodeAt(e: Enc, s: nat, m: nat, idx: int, env: Env, out: seq<Byte>, globals: map<int, int>)
      reads this
    {
      && Sized(e) && Linker(e, |Program(al, e)|) && s < |walk| && m <= |walk[s]| && idx == EndIdx(al, walk[s], m)
      && Base(walk, s) + m <= |Program(al, e)|
      && out == Out(Program(al, e), env, Base(walk, s) + m)
      && globals == GlobalsOf(Program(al, e), env, Base(walk, s) + m)
    }

    /** The displacement bytes of a branch, in the form the link pass has chosen. */
    method EncodeRel(ghost e: Enc, s: nat, ghost m: nat, idx: nat, ghost env: Env, base: int,
                     out: seq<Byte>, globals: map<int, int>) returns (r: seq<Byte>)
      requires EncodeAt(e, s, m, idx, env, out, globals) && m < |walk[s]| && IsRel(al, walk[s][m]) && base == env.base
      ensures Base(walk, s) + m + 1 <= |Program(al, e)| && r == Out(Program(al, e), env, Base(walk, s) + m + 1)
    {
      hide ListOk, SectionsOk, EventsAt, AllMarked, Program, Linking, Cut, ItemCut, WellFormed, Base, LittleEndian,
        GlobalsOf, Fin, Out, Holds, InBufs, Slot;
      ghost var f, g := Program(al, e), Base(walk, s) + m;
      ReadyProgram(al, e, lgsize);
      StepView(al, e, bufs, |f|, s, m);
      RelEncoded(al, e, bufs, s, m, g);
      OutStep(f, env, g);
      OutLength(f, env, g);
      RoomInFront(f, g);
      var n, shrink := bufs[s][idx], bufs[s][idx + 1];
      if n < 0 {
        MarkerGlobals(al, e, lgsize, env, g);
        NoTarget(al, e, g);
        n := (if -n in globals then globals[-n] else 0) - (base + |out| + 4);
        r := out + LittleEndian(n, 4);
      } else {
        ResolvedTarget(f, g);
        ghost var t := Target(f, g);
        ghost var s', m' := LabelRead(al, e, bufs, |f|, g, t);
        n := Slot(bufs, n) - (|out| + 4 - shrink);
        if shrink == 0 {
          r := out + LittleEndian(n, 4);
        } else if shrink == 4 {
          var op := out[|out| - 1];
          r := out[..|out| - 2] + [(op as int - 0x10) % 256] + LittleEndian(n, 1);
        } else {
          r := out[..|out| - 1] + [0xeb] + LittleEndian(n, 1);
        }
      }
    }

    /** The encode pass over one action. */
    method EncodeAction(ghost e: Enc, s: nat, ghost m: nat, p: nat, idx: nat, ghost env: Env, base: int,
                        out: seq<Byte>, globals: map<int, int>)
      returns (idx': nat, out': seq<Byte>, globals': map<int, int>)
      requires EncodeAt(e, s, m, idx, env, out, globals) && m < |walk[s]| && base == env.base
      requires p < |al| && p == After(al, walk[s], m)
      ensures EncodeAt(e, s, m + 1, idx', env, out', globals')
      ensures After(al, walk[s], m + 1) == if al[p].Ends() then -1 else p + 1
    {
      hide ListOk, SectionsOk, EventsAt, AllMarked, Program, Linking, Cut, ItemCut, WellFormed, Base, LittleEndian,
        GlobalsOf, Fin, Immediate, Padding, EmitRel, Out;
      ghost var f, g := Program(al, e), Base(walk, s) + m;
      ReadyProgram(al, e, lgsize);
      StepView(al, e, bufs, |f|, s, m);
      OutStep(f, env, g);
      idx', out', globals' := idx + Slots(al, Step(false, p, 0, 0, 0, -1)), out, globals;
      if al[p].Rel() {
        out' := EncodeRel(e, s, m, idx, env, base, out, globals);
      } else {
        out', globals' := EncodePlain(e, s, m, p, idx, env, base, out, globals);
      }
    }

    /** Every action but a branch. */
    method EncodePlain(ghost e: Enc, s: nat, ghost m: nat, p: nat, idx: nat, ghost env: Env, base: int,
                       out: seq<Byte>, globals: map<int, int>) returns (out': seq<Byte>, globals': map<int, int>)
      requires EncodeAt(e, s, m, idx, env, out, globals) && m < |walk[s]| && base == env.base
      requires p < |al| && p == After(al, walk[s], m) && !al[p].Rel()
      ensures var f, g := Program(al, e), Base(walk, s) + m;
              g + 1 <= |f| && out' == Out(f, env, g + 1) && globals' == GlobalsOf(f, env, g + 1)
    {
      hide ListOk, SectionsOk, EventsAt, AllMarked, Program, Linking, Cut, ItemCut, WellFormed, Base, LittleEndian,
        GlobalsOf, Fin, Immediate, Padding, EmitRel, Out;
      ghost var f, g := Program(al, e), Base(walk, s) + m;
      StepView(al, e, bufs, |f|, s, m);
      OutStep(f, env, g);
      out', globals' := out, globals;
      if al[p].Literal() {
        out' := out + [al[p].b];
      } else if al[p].Imm? {
        out' := Immediate(out, al[p].kind, bufs[s][idx]);
      } else if al[p].Space? {
        var n := bufs[s][idx];
        out' := out + seq(if n < 0 then 0 else n, _ => al[p].fill);
      } else if al[p].Align? {
        out' := EncodeAlign(out, al[p].mask);
      } else if al[p].LabelLG? && al[p].n >= 10 {
        globals' := globals[al[p].n as int := base + bufs[s][idx]];
      }
    }

    /** Fill with nops up to the next multiple of the alignment. */
    method EncodeAlign(out: seq<Byte>, mask: Byte) returns (r: seq<Byte>)
      ensures r == out + seq(Padding(|out|, mask as int + 1), _ => 0x90)
    {
      var n := mask as int + 1;
      r := out;
      ghost var k := 0;
      while |r| % n != 0
        invariant 0 <= k <= Padding(|out|, n) && r == out + seq(k, _ => 0x90)
        decreases Padding(|out|, n) - k
      {
        PaddingStep(|out|, n, k);
        r := r + [0x90];
        assert seq(k + 1, _ => 0x90 as Byte) == seq(k, _ => 0x90 as Byte) + [0x90];
        k := k + 1;
      }
      PaddingEnd(|out|, n, k);
    }

    lemma EncodeSection(e: Enc, s: nat, m: nat, idx: int, env: Env, out: seq<Byte>, globals: map<int, int>)
      requires EncodeAt(e, s, m, idx, env, out, globals)
      ensures s < |walk| == |bufs| == |ofs| && m <= |walk[s]|
      ensures After(al, walk[s], m) != -1 ==> m < |walk[s]| && 0 <= After(al, walk[s], m) < |al|
      ensures After(al, walk[s], m) == -1 ==> (idx == |bufs[s]| <==> m == |walk[s]|)
    {
      hide Out, GlobalsOf, Program, AllMarked, ListOk, EventsAt, Base;
      if After(al, walk[s], m) != -1 {
        WalkGoesOn(al, e, s, m);
        StepView(al, e, bufs, |Program(al, e)|, s, m);
      } else {
        WalkEnds(al, e, s, m);
      }
    }

    lemma EncodeStart(e: Enc, s: nat, m: nat, idx: int, env: Env, out: seq<Byte>, globals: map<int, int>)
      requires EncodeAt(e, s, m, idx, env, out, globals) && m < |walk[s]| && After(al, walk[s], m) == -1
      ensures s < |bufs| && 0 <= idx < |bufs[s]| && bufs[s][idx] == After(al, walk[s], m + 1) >= 0
      ensures EncodeAt(e, s, m + 1, idx + 1, env, out, globals)
    {
      hide ListOk, SectionsOk, EventsAt, AllMarked, Program, Linking, Out, GlobalsOf, Base;
      StepView(al, e, bufs, |Program(al, e)|, s, m);
      OutStep(Program(al, e), env, Base(walk, s) + m);
    }

    /** The encode pass over one put. */
    method EncodePut(ghost e: Enc, s: nat, ghost m0: nat, idx0: nat, ghost env: Env, base: int,
                     out0: seq<Byte>, globals0: map<int, int>)
      returns (idx: nat, out: seq<Byte>, globals: map<int, int>, ghost m: nat)
      requires EncodeAt(e, s, m0, idx0, env, out0, globals0) && base == env.base
      requires m0 < |walk[s]| && After(al, walk[s], m0) == -1
      ensures m0 < m && EncodeAt(e, s, m, idx, env, out, globals) && After(al, walk[s], m) == -1
    {
      hide EncodeAt, After;
      EncodeStart(e, s, m0, idx0, env, out0, globals0);
      EncodeSection(e, s, m0 + 1, idx0 + 1, env, out0, globals0);
      var p := bufs[s][idx0];
      idx, out, globals, m := idx0 + 1, out0, globals0, m0 + 1;
      while true
        invariant m0 < m && EncodeAt(e, s, m, idx, env, out, globals) && s < |walk| && p == After(al, walk[s], m)
        invariant m < |walk[s]| && 0 <= p < |al|
        decreases |walk[s]| - m
      {
        var ends := al[p].Ends();
        idx, out, globals := EncodeAction(e, s, m, p, idx, env, base, out, globals);
        p, m := p + 1, m + 1;
        if ends { return; }
        EncodeSection(e, s, m, idx, env, out, globals);
      }
    }

    /** Pass 3: encode sections. The phase error never happens: the bytes written are as
        many as the link pass announced. */
    method Encode(base: int, globals0: map<int, int>) returns (res: Status, out: seq<Byte>, globals: map<int, int>)
      requires Linked()
      ensures res.Ok? && |out| == codesize
      ensures var f, env := Program(al, View().(bufs := marked)), Env(base, globals0);
              out == Out(f, env, |f|) && globals == GlobalsOf(f, env, |f|)
    {
      hide EncodeAt, Ready, Program, Linking, Fin, Out, GlobalsOf;
      ghost var e, env := View().(bufs := marked), Env(base, globals0);
      out, globals := [], globals0;
      EncodeBegins(e, env, out, globals);
      for s := 0 to |bufs|
        invariant Written(e, s, env, out, globals)
      {
        SectionOpens(e, s, env, out, globals);
        var idx := 0;
        ghost var m := 0;
        while idx != |bufs[s]|
          invariant s < |walk| == |bufs| && EncodeAt(e, s, m, idx, env, out, globals) && After(al, walk[s], m) == -1
          decreases |walk[s]| - m
        {
          EncodeSection(e, s, m, idx, env, out, globals);
          idx, out, globals, m := EncodePut(e, s, m, idx, env, base, out, globals);
          EncodeSection(e, s, m, idx, env, out, globals);
        }
        SectionCloses(e, s, m, idx, env, out, globals);
      }
      EncodeEnds(e, env, out, globals);
      res := if |out| != codesize then Phase else Ok;
    }

    /** The sections in front of s have been encoded. */
    ghost predicate Written(e: Enc, s: nat, env: Env, out: seq<Byte>, globals: map<int, int>)
      reads this
    {
      && Sized(e) && Linker(e, |Program(al, e)|) && s <= |walk| && Base(walk, s) <= |Program(al, e)|
      && out == Out(Program(al, e), env, Base(walk, s)) && globals == GlobalsOf(Program(al, e), env, Base(walk, s))
    }

    lemma EncodeBegins(e: Enc, env: Env, out: seq<Byte>, globals: map<int, int>)
      requires Linked() && e == View().(bufs := marked) && out == [] && globals == env.globals
      ensures Written(e, 0, env, out, globals) && |bufs| == |walk|
    {
    }

    lemma SectionOpens(e: Enc, s: nat, env: Env, out: seq<Byte>, globals: map<int, int>)
      requires Written(e, s, env, out, globals) && s < |bufs|
      ensures s < |walk| == |bufs| && EncodeAt(e, s, 0, 0, env, out, globals) && After(al, walk[s], 0) == -1
    {
    }

    lemma SectionCloses(e: Enc, s: nat, m: nat, idx: int, env: Env, out: seq<Byte>, globals: map<int, int>)
      requires EncodeAt(e, s, m, idx, env, out, globals) && After(al, walk[s], m) == -1 && s < |bufs|
               && idx == |bufs[s]|
      ensures Written(e, s + 1, env, out, globals)
    {
      hide Out, GlobalsOf, Program, Ready, Linking;
      EncodeSection(e, s, m, idx, env, out, globals);
    }

    lemma EncodeEnds(e: Enc, env: Env, out: seq<Byte>, globals: map<int, int>)
      requires Written(e, |bufs|, env, out, globals)
      ensures var f := Program(al, e);
              out == Out(f, env, |f|) && globals == GlobalsOf(f, env, |f|) && |out| == Fin(f, |f|)
    {
      hide Out, GlobalsOf, Program, AllMarked, ListOk, EventsAt, WellFormed, Resolved, Fin;
      ReadyProgram(al, e, lgsize);
      OutLength(Program(al, e), env, |Program(al, e)|);
    }

    /** The final offset of a PC label, -1 if it is undefined and -2 if it is unused. */
    method GetPcLabel(pc: nat) returns (r: int, ghost t: nat)
      requires lab == lbl.lab && (forall i: nat :: PC(i) in lab <==> i < pcsize)
      requires Linked()
      ensures PC(pc) !in lab || lab[PC(pc)] == 0 ==> r == -2
      ensures PC(pc) in lab && lab[PC(pc)] > 0 ==> r == -1
      ensures PC(pc) in lab && lab[PC(pc)] < 0 ==>
                var f := Program(al, View().(bufs := marked));
                t < |f| && f[t].Label() && f[t].pos == -lab[PC(pc)] && r == Fin(f, t)
    {
      hide Fin, Program, Linking, Ready, Slot;
      t := 0;
      if pc < pcsize {
        var pos := lab[PC(pc)];
        if pos < 0 {
          t := PlacedLabel(al, View().(bufs := marked), bufs, lgsize, PC(pc));
          return Slot(bufs, -pos), t;
        }
        if pos > 0 { return -1, t; }
      }
      r := -2;
    }
  }

  /** A placed label is a step of the program. */
  lemma LabelStepOf(al: ActList, e: Enc, key: Key) returns (s: nat, m: nat)
    requires EventsAt(al, e) && TablesOk(e.lbl) && key in e.lbl.lab && e.lbl.lab[key] < 0
    ensures s < |e.walk| && m < |e.walk[s]| && IsLabel(al, e.walk[s][m])
    ensures Pos(s, e.walk[s][m].idx) == -e.lbl.lab[key]
  {
    assert TableOk(e.lbl, key);
    var d := e.lbl.last[key];
    assert EventAt(al, e, d);
    s, m := e.at[d].0, e.at[d].1;
  }

  lemma LabelHolds(al: ActList, e: Enc, b: Bufs, s: nat, m: nat)
    requires SectionsOk(al, e, 0, -1) && s < |e.walk| && m < |e.walk[s]| && IsLabel(al, e.walk[s][m])
    requires Linking(al, e, Program(al, e), b, |Program(al, e)|)
    ensures var f, t, pos := Program(al, e), Base(e.walk, s) + m, Pos(s, e.walk[s][m].idx);
            t < |f| && f[t].Label() && f[t].pos == pos && InBufs(b, pos) && Slot(b, pos) == Fin(f, t)
  {
    hide Fin, Program, Base;
    StepView(al, e, b, |Program(al, e)|, s, m);
    SectionParts(al, e, s);
    PosParts(s, e.walk[s][m].idx);
  }

  /** The slot of a placed label holds its final offset. */
  lemma PlacedLabel(al: ActList, e: Enc, b: Bufs, lgsize: int, key: Key) returns (t: nat)
    requires Ready(al, e, lgsize) && Sized(e) && Linking(al, e, Program(al, e), b, |Program(al, e)|)
    requires key in e.lbl.lab && e.lbl.lab[key] < 0
    ensures var f := Program(al, e);
            t < |f| && f[t].Label() && f[t].pos == -e.lbl.lab[key] && Slot(b, f[t].pos) == Fin(f, t)
  {
    hide Fin, Program, Base, Linking, EventsAt, TablesOk, Slot, InBufs, ListOk, SectionsOk;
    var s, m := LabelStepOf(al, e, key);
    LabelHolds(al, e, b, s, m);
    t := Base(e.walk, s) + m;
  }

  lemma PaddingStep(x: nat, n: int, k: nat)
    requires n > 0 && k <= Padding(x, n) && (x + k) % n != 0
    ensures k < Padding(x, n)
  {
    var q := x / n;
    if x % n == 0 {
    } else {
      assert x + (n - x % n) == n * q + n == n * (q + 1);
      ModUnique(x + (n - x % n), n, q + 1, 0);
    }
  }

  lemma PaddingEnd(x: nat, n: int, k: nat)
    requires n > 0 && k <= Padding(x, n) && (x + k) % n == 0
    ensures k == Padding(x, n)
  {
    PaddingUnique(x, k, n);
  }

  /** The addresses of the global labels once the first k items are encoded. */
  ghost function GlobalsOf(f: seq<Item>, env: Env, k: nat): map<int, int>
    requires k <= |f|
  {
    if k == 0 then env.globals
    else
      var g := GlobalsOf(f, env, k - 1);
      if f[k - 1].Label() && f[k - 1].act.LabelLG? && f[k - 1].act.n >= 10
      then g[f[k - 1].act.n as int := env.base + Fin(f, k - 1)] else g
  }

  lemma {:induction false} GlobalsKeep(f: seq<Item>, env: Env, k: nat, n: int)
    requires k <= |f|
    requires forall t :: 0 <= t < |f| && f[t].Label() && f[t].act.LabelLG? ==> f[t].act.n != n
    ensures n in GlobalsOf(f, env, k) <==> n in env.globals
    ensures n in env.globals ==> GlobalsOf(f, env, k)[n] == env.globals[n]
  {
    if k > 0 {
      GlobalsKeep(f, env, k - 1, n);
    }
  }

  /** The address of an external global is not changed by the encode pass. */
  lemma MarkerGlobals(al: ActList, e: Enc, lgsize: int, env: Env, g: nat)
    requires Ready(al, e, lgsize) && Sized(e) && g < |Program(al, e)|
    requires Program(al, e)[g].Rel() && Program(al, e)[g].link < 0
    ensures var n, now := -Program(al, e)[g].link, GlobalsOf(Program(al, e), env, g);
            (n in now <==> n in env.globals) && (n in env.globals ==> now[n] == env.globals[n])
  {
    hide SectionsOk, EventsAt, AllMarked, Program, GlobalsOf, ListOk;
    var f := Program(al, e);
    forall t | 0 <= t < |f| && f[t].Label() && f[t].act.LabelLG? ensures f[t].act.n as int != -f[g].link {
      MarkerUndefined(al, e, lgsize, g, t);
    }
    GlobalsKeep(f, env, g, -f[g].link);
  }

  lemma OutStep(f: seq<Item>, env: Env, g: nat)
    requires g < |f|
    ensures Out(f, env, g + 1) == Emit(f, env, g, Out(f, env, g))
    ensures GlobalsOf(f, env, g + 1) ==
            if f[g].Label() && f[g].act.LabelLG? && f[g].act.n >= 10
            then GlobalsOf(f, env, g)[f[g].act.n as int := env.base + Fin(f, g)] else GlobalsOf(f, env, g)
  {
  }

  lemma RoomInFront(f: seq<Item>, g: nat)
    requires WellFormed(f) && g < |f| && f[g].Rel()
    ensures Fin(f, g) >= 1 && (ItemCut(f, g) == 4 ==> Fin(f, g) >= 2)
    ensures ItemCut(f, g) == 0 || ItemCut(f, g) == 3 || ItemCut(f, g) == 4
  {
    LiteralRoom(f, g);
  }

  /** What the encode pass reads for a branch. */
  lemma RelEncoded(al: ActList, e: Enc, b: Bufs, s: nat, m: nat, g: nat)
    requires SectionsOk(al, e, 0, -1) && Linking(al, e, Program(al, e), b, |Program(al, e)|)
    requires s < |e.walk| && m < |e.walk[s]| && IsRel(al, e.walk[s][m]) && g == Base(e.walk, s) + m
    ensures var it, f := e.walk[s][m], Program(al, e);
            && g < |f| && f[g].Rel()
            && s < |b| && it.idx + 1 < |b[s]| && b[s][it.idx] == f[g].link && b[s][it.idx + 1] == ItemCut(f, g)
  {
    StepView(al, e, b, |Program(al, e)|, s, m);
  }

  lemma GoodParts(al: ActList, e: Enc, s: int)
    requires Good(al, e, s, -1)
    ensures SectionsOk(al, e, s, -1) && EventsAt(al, e) && Threaded(e.bufs, e.lbl)
  {
  }

  lemma MarkingParts(b: Bufs, l: Labels, i: nat)
    requires Marking(b, l, i) && i >= 10 && LG(i) in l.lab
    ensures EventsOk(b, l) && TablesOk(l) && ChainOk(b, l, LG(i)) && LG(i) in l.pend
  {
  }

  /** What the link pass reads for a branch. */
  lemma RelView(al: ActList, e: Enc, b: Bufs, s: nat, m: nat, g: nat)
    requires SectionsOk(al, e, 0, -1) && Linking(al, e, Program(al, e), b, g)
    requires s < |e.walk| && m < |e.walk[s]| && IsRel(al, e.walk[s][m]) && g == Base(e.walk, s) + m
    ensures var it, f := e.walk[s][m], Program(al, e);
            && g < |f| && f[g].Rel() && f[g].op == Op(al, it.p) && f[g].pos == Pos(s, it.idx)
            && s < |b| && it.idx + 1 < |b[s]| && b[s][it.idx] == f[g].link && b[s][it.idx + 1] == it.o1
  {
    StepView(al, e, b, g, s, m);
  }

  /** Positions are not negative, so that a marker is not taken for a label. */
  lemma NoTarget(al: ActList, e: Enc, g: nat)
    requires Sized(e) && g < |Program(al, e)| && Program(al, e)[g].link < 0
    ensures Target(Program(al, e), g) == -1
  {
    var f, t := Program(al, e), Target(Program(al, e), g);
    if t >= 0 {
      ProgramLength(al, e);
      var s, m := Locate(e.walk, |e.walk|, t);
      ProgramRel(al, e, s, m);
    }
  }

  lemma ResolvedTarget(f: seq<Item>, g: nat)
    requires Resolved(f) && g < |f| && f[g].Rel() && f[g].link >= 0
    ensures Target(f, g) >= 0 && Jumps(f, g, Target(f, g))
  {
  }

  lemma OrderedSections(al: ActList, e: Enc, s: nat, m: nat, s': nat, m': nat)
    requires SectionsOk(al, e, 0, -1) && s < |e.walk| && m < |e.walk[s]| && s' < |e.walk| && m' < |e.walk[s']|
    requires Base(e.walk, s') + m' > Base(e.walk, s) + m
    ensures s <= s' <= |e.ofs|
  {
    Ordered(e.walk, s, m, s', m');
  }

  /** Forgetting a local label that is not pending keeps the threading. */
  lemma ForgetKeeps(al: ActList, e: Enc, s: int, key: Key)
    requires Good(al, e, s, -1) && key.Local() && key in e.lbl.lab && e.lbl.lab[key] <= 0
    ensures Good(al, e.(lbl := e.lbl.(lab := e.lbl.lab[key := 0])), s, -1)
  {
    hide SectionsOk, EventsAt, Threaded;
    var lbl' := e.lbl.(lab := e.lbl.lab[key := 0]);
    var e' := e.(lbl := lbl');
    SectionsLabels(al, e, e', s, -1);
    ForgetThreaded(e.bufs, e.lbl, key);
    ForgetEvents(al, e, lbl');
  }

  lemma ForgetEvents(al: ActList, e: Enc, l: Labels)
    requires EventsAt(al, e) && l.hist == e.lbl.hist
    ensures EventsAt(al, e.(lbl := l))
  {
    hide IsRel, IsLabel, KeyOf, FwdOf;
    forall h | 0 <= h < |e.at| ensures EventAt(al, e.(lbl := l), h) {
      assert EventAt(al, e, h);
    }
    forall i, m | 0 <= i < |e.walk| && 0 <= m < |e.walk[i]| ensures EventOf(al, e.(lbl := l), i, m) {
      assert EventOf(al, e, i, m);
    }
  }

  lemma ForgetThreaded(b: Bufs, l: Labels, key: Key)
    requires Threaded(b, l) && key.Local() && key in l.lab && l.lab[key] <= 0
    ensures Threaded(b, l.(lab := l.lab[key := 0]))
  {
    hide Settled, Waits, TableOk, InBufs;
    var l' := l.(lab := l.lab[key := 0]);
    forall h: nat | h < |l.hist| && Settled(b, l, h) ensures Settled(b, l', h) {
      ForgetSettled(b, l, l', h);
    }
    forall k, j | k in l.pend && 0 <= j < |l.pend[k]| ensures Waits(b, l', k, j) {
      ForgetWaits(b, l, l', k, j);
    }
    forall k | k in l'.lab ensures TableOk(l', k) {
      ForgetTable(l, key, k);
    }
  }

  lemma ForgetSettled(b: Bufs, l: Labels, l': Labels, h: nat)
    requires Settled(b, l, h) && l'.hist == l.hist && l'.bind == l.bind
    ensures Settled(b, l', h)
  {
  }

  lemma ForgetWaits(b: Bufs, l: Labels, l': Labels, k: Key, j: nat)
    requires Waits(b, l, k, j) && l'.hist == l.hist && l'.bind == l.bind && l'.pend == l.pend
    ensures Waits(b, l', k, j)
  {
  }

  lemma ForgetTable(l: Labels, key: Key, k: Key)
    requires TableOk(l, k) && key.Local() && key in l.lab && l.lab[key] <= 0
    ensures TableOk(l.(lab := l.lab[key := 0]), k)
  {
  }

  /** Between puts no section is special. */
  lemma SwitchSection(al: ActList, e: Enc, s: int, s': int)
    requires Good(al, e, s, -1)
    ensures Good(al, e, s', -1)
  {
    hide SecOk, After, EventsAt, Threaded;
    forall i | 0 <= i < |e.bufs| ensures SectionOk(al, e, s', -1, i) {
      assert SectionOk(al, e, s, -1, i);
    }
  }

  lemma ThreadedParts(b: Bufs, l: Labels, key: Key)
    requires Threaded(b, l) && key in l.lab
    ensures EventsOk(b, l) && ChainOk(b, l, key) && TablesOk(l) && key in l.pend
  {
  }

  lemma PushGood(al: ActList, e: Enc, s: nat, next: int, it: Step, vals: seq<int>)
    requires Good(al, e, s, next) && Sized(e) && s < |e.bufs| && !IsRel(al, it) && !IsLabel(al, it)
    requires it.p < |al| && it == NewStep(al, e, s, it.start, it.p, it.n, -1) && MaxOf(al, it) >= 0
    requires |vals| == Slots(al, it) && |e.bufs[s]| + |vals| <= BIAS && Stored(al, e.bufs[s] + vals, it)
    requires if next == -1 then it.start && StartOk(al, it.p) else !it.start && it.p == next
    ensures it.o1 == e.ofs[s] + MaxOf(al, it)
    ensures Good(al, Pushed(e, s, it, vals), s, NextP(al, Step(it.start, it.p, it.n, 0, 0, -1)))
  {
    PushKeeps(al, e, s, next, it, vals);
  }

  lemma RelStepFits(al: ActList, e: Enc, s: nat, p: nat, n: int)
    requires Good(al, e, s, p) && Sized(e) && s < |e.bufs| && |e.bufs[s]| + 2 <= BIAS
    requires p < |al| && al[p].Rel()
    ensures var it := NewStep(al, e, s, false, p, n, |e.lbl.hist|);
            && RelFits(al, e, s, p, it) && IsRel(al, it) && it.o1 == e.ofs[s] + 4 && NextP(al, it) == p + 1
            && KeyOf(al, it) == KeyOf(al, Step(false, p, n, 0, 0, -1)) && Pos(s, it.idx) > 0
            && FwdOf(al, it) == FwdOf(al, Step(false, p, n, 0, 0, -1)) && (FwdOf(al, it) ==> KeyOf(al, it) != LG(0))
  {
    hide Good;
    NewPosition(al, e, s, p);
  }

  lemma LabelStepFits(al: ActList, e: Enc, s: nat, p: nat, n: int)
    requires Good(al, e, s, p) && Sized(e) && s < |e.bufs| && |e.bufs[s]| + 1 <= BIAS
    requires p < |al| && al[p].Label()
    ensures var it := NewStep(al, e, s, false, p, n, |e.lbl.hist|);
            && LabelFits(al, e, s, p, it) && IsLabel(al, it) && it.o1 == e.ofs[s] && NextP(al, it) == p + 1
            && KeyOf(al, it) == KeyOf(al, Step(false, p, n, 0, 0, -1)) && Pos(s, it.idx) > 0
    ensures Threaded(e.bufs, e.lbl) && e.lbl.lab.Keys == e.lbl.pend.Keys
  {
    NewPosition(al, e, s, p);
  }

  lemma ChainPositive(b: Bufs, l: Labels, key: Key, j: nat)
    requires EventsOk(b, l) && ChainOk(b, l, key) && j < |l.pend[key]|
    ensures j > 0 ==> ChainPos(l, key)[j - 1] > 0
  {
    if j > 0 {
      ChainShape(b, l, key, j - 1);
    }
  }

  lemma RewriteOne(a: Bufs, b: Bufs, ps: seq<int>, j: nat, v: int)
    requires 0 < j <= |ps| && InBufs(a, ps[j - 1]) && ps[j - 1] !in ps[j..]
    requires SameShape(a, b) && Rewritten(a, b, ps[j..], v)
    ensures InBufs(b, ps[j - 1]) && Slot(b, ps[j - 1]) == Slot(a, ps[j - 1])
    ensures SameShape(a, SetSlot(b, ps[j - 1], v))
    ensures Rewritten(a, SetSlot(b, ps[j - 1], v), ps[j - 1..], v)
  {
    hide Slot, InBufs, SetSlot;
    SetSlotReads(b, ps[j - 1], v);
    assert ps[j - 1..] == [ps[j - 1]] + ps[j..];
  }
}

/** What a program of dasm_put and dasm_checkstep calls means, on values only: the steps it
    appends to each section, its label events, and the error that ends it. */
module DasmTrace {
  import opened DasmLayout
  import opened DasmLabels
  import opened DasmWalk
  import opened DasmState

  datatype Status = Ok | RangeI | RangeSec | RangeLG | RangePC | UndefL | UndefPC | MatchSec | Phase

  /** The sizes given at setup: local and global labels, PC labels, sections. */
  datatype Limits = Limits(lgsize: nat, pcsize: nat, sections: nat)

  /** The labels that are placed, and those that are referred to and not placed since. */
  datatype Marks = Marks(placed: set<Key>, pending: set<Key>)

  datatype Trace = Trace(walk: seq<seq<Step>>, hist: seq<Event>, marks: Marks, section: nat)

  datatype Call = Put(start: nat, args: seq<int>) | Check(secmatch: int)

  /** The values an immediate of a given kind may have. */
  predicate ImmFits(kind: ImmKind, n: int) {
    match kind
    case ImmS => Int8(n)
    case ImmB => 0 <= n < 0x100
    case ImmW => 0 <= n < 0x10000
    case ImmWB => Int8(n) || 0 <= n < 0x10000
    case ImmD => true
    case ImmDB => true
  }

  // ---------------------------------------------------------------- one action

  predicate TakesArg(a: Action) { a.Imm? || a.Space? || a.RelPC? || a.LabelPC? }

  function ArgFor(a: Action, args: seq<int>): int { if TakesArg(a) && |args| > 0 then args[0] else 0 }

  function ArgsAfter(a: Action, args: seq<int>): seq<int> { if TakesArg(a) && |args| > 0 then args[1..] else args }

  /** The error that an action with argument n is refused with, in the checked build. A
      backward reference to a local label needs the label to be placed. */
  function Fault(lim: Limits, a: Action, n: int, marks: Marks): Status {
    match a
    case Imm(kind) => if ImmFits(kind, n) then Ok else RangeI
    case RelLG(i) =>
      if i <= 246 && ((i < 10 && LG(i) !in marks.placed) || i >= lim.lgsize) then RangeLG else Ok
    case RelPC => if 0 <= n < lim.pcsize then Ok else RangePC
    case LabelLG(i) => if i < lim.lgsize then Ok else RangeLG
    case LabelPC => if 0 <= n < lim.pcsize then Ok else RangePC
    case Section(i) => if i < lim.sections then Ok else RangeSec
    case _ => Ok
  }

  /** The next step of a section whose walk so far is w, when h label events have happened. */
  function StepOn(al: ActList, w: seq<Step>, h: nat, start: bool, p: nat, n: int): Step {
    var it := Step(start, p, n, EndIdx(al, w, |w|), 0, -1);
    it.(o1 := EndOfs(w, |w|) + MaxOf(al, it), ev := if IsRel(al, it) || IsLabel(al, it) then h else -1)
  }

  function EventsOn(al: ActList, s: nat, it: Step): seq<Event> {
    if IsLabel(al, it) then [Event(true, KeyOf(al, it), false, Pos(s, it.idx))]
    else if IsRel(al, it) then [Event(false, KeyOf(al, it), FwdOf(al, it), Pos(s, it.idx))]
    else []
  }

  /** Placing a label ends its chain; a reference that cannot use the placed label joins or
      starts one. */
  function MarksOn(al: ActList, it: Step, m: Marks): Marks {
    var key := KeyOf(al, it);
    if IsLabel(al, it) then Marks(m.placed + {key}, m.pending - {key})
    else if IsRel(al, it) && (FwdOf(al, it) || key !in m.placed) then Marks(m.placed - {key}, m.pending + {key})
    else m
  }

  function Advance(al: ActList, t: Trace, start: bool, p: nat, n: int): Trace {
    if t.section < |t.walk| then
      var w := t.walk[t.section];
      var it := StepOn(al, w, |t.hist|, start, p, n);
      Trace(t.walk[t.section := w + [it]], t.hist + EventsOn(al, t.section, it), MarksOn(al, it, t.marks), t.section)
    else t
  }

  // ---------------------------------------------------------------- whole calls

  /** The actions of a put from p to the end of its block. */
  function PutRun(al: ActList, lim: Limits, t: Trace, p: nat, args: seq<int>): (Status, Trace)
    decreases |al| - p
  {
    if p >= |al| then (Ok, t)
    else
      var n := ArgFor(al[p], args);
      var status := Fault(lim, al[p], n, t.marks);
      var t' := Advance(al, t, false, p, n);
      if status != Ok then (status, t)
      else if al[p].Section? then (Ok, t'.(section := al[p].n))
      else if al[p].Stop? then (Ok, t')
      else PutRun(al, lim, t', p + 1, ArgsAfter(al[p], args))
  }

  function PutTrace(al: ActList, lim: Limits, t: Trace, start: nat, args: seq<int>): (Status, Trace) {
    PutRun(al, lim, Advance(al, t, true, start, 0), start, args)
  }

  /** The local labels below i. */
  function Locals(i: int): set<Key> { set j: nat | 1 <= j < i :: LG(j) }

  /** dasm_checkstep: no local label may be pending; all are forgotten. */
  function CheckTrace(t: Trace, secmatch: int): (Status, Trace) {
    if t.marks.pending * Locals(10) != {} then (UndefL, t)
    else
      var t' := t.(marks := Marks(t.marks.placed - Locals(10), t.marks.pending));
      if secmatch >= 0 && t.section != secmatch then (MatchSec, t') else (Ok, t')
  }

  function CallTrace(al: ActList, lim: Limits, t: Trace, call: Call): (Status, Trace) {
    match call
    case Put(start, args) => PutTrace(al, lim, t, start, args)
    case Check(secmatch) => CheckTrace(t, secmatch)
  }

  /** A whole program of calls, up to the first error. */
  function Calls(al: ActList, lim: Limits, t: Trace, calls: seq<Call>): (Status, Trace)
    decreases |calls|
  {
    if calls == [] then (Ok, t)
    else
      var r := CallTrace(al, lim, t, calls[0]);
      if r.0 != Ok then r else Calls(al, lim, r.1, calls[1..])
  }

  function Fresh(lim: Limits): Trace {
    Trace(seq(lim.sections, _ => []), [], Marks({}, {}), 0)
  }

  // ---------------------------------------------------------------- what callers provide

  /** What a caller of dasm_put must provide from action p on: an argument for every action
      that takes one, no negative space, and `room` buffer positions. */
  predicate PutOk(al: ActList, p: nat, args: seq<int>, room: int)
    decreases |al| - p
  {
    p < |al| && room >= 0 &&
    (al[p].Ends() ||
      (&& (TakesArg(al[p]) ==> |args| > 0)
       && (al[p].Space? ==> ArgFor(al[p], args) >= 0)
       && room >= Slots(al, Step(false, p, 0, 0, 0, -1))
       && PutOk(al, p + 1, ArgsAfter(al[p], args), room - Slots(al, Step(false, p, 0, 0, 0, -1)))))
  }

  lemma PutOkFacts(al: ActList, p: nat, args: seq<int>, room: int)
    requires PutOk(al, p, args, room)
    ensures p < |al| && room >= 0
  {
  }

  /** Buffer positions left in a section. */
  function Room(al: ActList, w: seq<Step>): int { BIAS - EndIdx(al, w, |w|) }

  predicate CallOk(al: ActList, t: Trace, call: Call) {
    match call
    case Put(start, args) =>
      && StartOk(al, start) && t.section < |t.walk|
      && PutOk(al, start, args, Room(al, t.walk[t.section]) - 1)
    case Check(_) => true
  }

  predicate CallsOk(al: ActList, lim: Limits, t: Trace, calls: seq<Call>)
    decreases |calls|
  {
    calls == [] ||
    (CallOk(al, t, calls[0]) &&
      var r := CallTrace(al, lim, t, calls[0]); r.0 == Ok ==> CallsOk(al, lim, r.1, calls[1..]))
  }

  /** The worst-case size of a program, over all its sections. */
  function WorstSize(walk: seq<seq<Step>>): int {
    if walk == [] then 0 else WorstSize(walk[..|walk| - 1]) + EndOfs(walk[|walk| - 1], |walk[|walk| - 1]|)
  }

  // ---------------------------------------------------------------- what a put appends

  /** The arguments taken by a walk, in order. */
  function ArgsOf(al: ActList, w: seq<Step>): seq<int> {
    if w == [] then []
    else
      var it := w[|w| - 1];
      ArgsOf(al, w[..|w| - 1]) + (if !it.start && TakesArg(Act(al, it.p)) then [it.n] else [])
  }

  /** Walk r is walk w and then one step for each action from p to the end of its block. */
  ghost predicate Appended(al: ActList, w: seq<Step>, r: seq<Step>, p: int) {
    && w < r
    && (forall m :: |w| <= m < |r| ==> !r[m].start && r[m].p == p + (m - |w|))
    && (forall m :: |w| <= m < |r| ==> (Act(al, r[m].p).Ends() <==> m == |r| - 1))
  }

  lemma AdvanceFacts(al: ActList, t: Trace, start: bool, p: nat, n: int)
    requires t.section < |t.walk|
    ensures var r, w := Advance(al, t, start, p, n), t.walk[t.section];
            && r.section == t.section && |r.walk| == |t.walk|
            && (forall i :: 0 <= i < |t.walk| && i != t.section ==> r.walk[i] == t.walk[i])
            && r.walk[t.section] == w + [StepOn(al, w, |t.hist|, start, p, n)]
  {
  }

  lemma ArgsPush(al: ActList, w: seq<Step>, it: Step)
    ensures ArgsOf(al, w + [it]) == ArgsOf(al, w) + (if !it.start && TakesArg(Act(al, it.p)) then [it.n] else [])
  {
    assert (w + [it])[..|w|] == w;
  }

  lemma {:induction false} RunAppends(al: ActList, lim: Limits, t: Trace, p: nat, args: seq<int>, room: int)
    requires t.section < |t.walk| && PutOk(al, p, args, room) && PutRun(al, lim, t, p, args).0 == Ok
    ensures var w, r := t.walk[t.section], PutRun(al, lim, t, p, args).1.walk;
            && |r| == |t.walk| && (forall i :: 0 <= i < |r| && i != t.section ==> r[i] == t.walk[i])
            && Appended(al, w, r[t.section], p)
            && ArgsOf(al, w) <= ArgsOf(al, r[t.section]) <= ArgsOf(al, w) + args
    decreases |al| - p
  {
    hide Advance, ArgsOf, StepOn, Fault, Slots;
    var n, w := ArgFor(al[p], args), t.walk[t.section];
    var it := StepOn(al, w, |t.hist|, false, p, n);
    AdvanceFacts(al, t, false, p, n);
    StepFacts(al, w, |t.hist|, false, p, n);
    ArgsPush(al, w, it);
    if !al[p].Ends() {
      RunAppends(al, lim, Advance(al, t, false, p, n), p + 1, ArgsAfter(al[p], args),
                 room - Slots(al, Step(false, p, 0, 0, 0, -1)));
    }
  }

  lemma StepFacts(al: ActList, w: seq<Step>, h: nat, start: bool, p: nat, n: int)
    ensures var it := StepOn(al, w, h, start, p, n); it.start == start && it.p == p && it.n == n
  {
  }

  /** A put that succeeds appends to its section its start and then every action up to the
      end of the block, once each and in order; it takes its arguments in order; the other
      sections stay as they are. */
  lemma PutAppends(al: ActList, lim: Limits, t: Trace, start: nat, args: seq<int>, room: int)
    requires t.section < |t.walk| && PutOk(al, start, args, room) && PutTrace(al, lim, t, start, args).0 == Ok
    ensures var w, r := t.walk[t.section], PutTrace(al, lim, t, start, args).1.walk;
            && |r| == |t.walk| && (forall i :: 0 <= i < |r| && i != t.section ==> r[i] == t.walk[i])
            && (exists it: Step :: it.start && it.p == start && Appended(al, w + [it], r[t.section], start))
            && ArgsOf(al, w) <= ArgsOf(al, r[t.section]) <= ArgsOf(al, w) + args
  {
    hide Advance, ArgsOf, StepOn, PutRun, PutOk, Appended;
    var w := t.walk[t.section];
    AdvanceFacts(al, t, true, start, 0);
    StepFacts(al, w, |t.hist|, true, start, 0);
    ArgsPush(al, w, StepOn(al, w, |t.hist|, true, start, 0));
    RunAppends(al, lim, Advance(al, t, true, start, 0), start, args, room);
  }

  // ---------------------------------------------------------------- the trace of the encoder

  ghost function MarksOf(lab: map<Key, int>): Marks {
    Marks(set k | k in lab && lab[k] < 0, set k | k in lab && lab[k] > 0)
  }

  ghost function TraceOf(e: Enc, s: nat): Trace {
    Trace(e.walk, e.lbl.hist, MarksOf(e.lbl.lab), s)
  }

  /** The step that the encoder appends is the next step of its trace. */
  lemma StepAgrees(al: ActList, e: Enc, s: nat, next: int, start: bool, p: nat, n: int)
    requires SectionsOk(al, e, s, next) && Sized(e) && s < |e.bufs|
    ensures var it := StepOn(al, e.walk[s], |e.lbl.hist|, start, p, n);
            it == NewStep(al, e, s, start, p, n, it.ev)
            && it.ev == if IsRel(al, it) || IsLabel(al, it) then |e.lbl.hist| else -1
  {
    SectionFacts(al, e, s, next);
  }

  lemma GoodSections(al: ActList, e: Enc, s: int, next: int)
    requires Good(al, e, s, next)
    ensures SectionsOk(al, e, s, next) && Sized(e)
  {
  }

  lemma PlainAdvances(al: ActList, e: Enc, s: nat, next: int, it: Step, vals: seq<int>)
    requires Good(al, e, s, next) && Sized(e) && s < |e.bufs| && !IsRel(al, it) && !IsLabel(al, it)
    requires it == NewStep(al, e, s, it.start, it.p, it.n, -1)
    ensures TraceOf(Pushed(e, s, it, vals), s) == Advance(al, TraceOf(e, s), it.start, it.p, it.n)
  {
    hide Good, SectionsOk, MaxOf, EndIdx, MarksOf;
    GoodSections(al, e, s, next);
    StepAgrees(al, e, s, next, it.start, it.p, it.n);
  }

  lemma MarksPlaced(lab: map<Key, int>, key: Key, v: int)
    requires v < 0
    ensures MarksOf(lab[key := v]) == Marks(MarksOf(lab).placed + {key}, MarksOf(lab).pending - {key})
  {
  }

  lemma MarksLinked(lab: map<Key, int>, key: Key, v: int)
    requires v > 0
    ensures MarksOf(lab[key := v]) == Marks(MarksOf(lab).placed - {key}, MarksOf(lab).pending + {key})
  {
  }

  lemma MarksForgotten(lab: map<Key, int>, key: Key)
    requires key in lab && lab[key] <= 0
    ensures MarksOf(lab[key := 0]) == Marks(MarksOf(lab).placed - {key}, MarksOf(lab).pending)
  {
  }

  /** Trace u is t after a check step has forgotten the local labels below i. */
  ghost predicate Forgot(t: Trace, u: Trace, i: int) {
    u == t.(marks := Marks(t.marks.placed - Locals(i), t.marks.pending)) && t.marks.pending * Locals(i) == {}
  }

  lemma ForgotNone(t: Trace)
    ensures Forgot(t, t, 1)
  {
  }

  lemma ForgotNext(t: Trace, u: Trace, lab: map<Key, int>, i: nat)
    requires 1 <= i && Forgot(t, u, i) && u.marks == MarksOf(lab) && LG(i) in lab && lab[LG(i)] <= 0
    ensures Forgot(t, u.(marks := MarksOf(lab[LG(i) := 0])), i + 1)
  {
    MarksForgotten(lab, LG(i));
    PlacedIs(lab, LG(i));
    assert Locals(i + 1) == Locals(i) + {LG(i)};
  }

  lemma ForgotPending(t: Trace, u: Trace, lab: map<Key, int>, i: nat, secmatch: int)
    requires 1 <= i <= 9 && Forgot(t, u, i) && u.marks == MarksOf(lab) && LG(i) in lab && lab[LG(i)] > 0
    ensures CheckTrace(t, secmatch).0 == UndefL
  {
    assert LG(i) in MarksOf(lab).pending * Locals(10);
  }

  lemma ForgotAll(t: Trace, u: Trace, secmatch: int)
    requires Forgot(t, u, 10)
    ensures CheckTrace(t, secmatch).1 == u && u.section == t.section && u.marks.pending * Locals(10) == {}
    ensures CheckTrace(t, secmatch).0 == if secmatch >= 0 && t.section != secmatch then MatchSec else Ok
  {
  }

  lemma PlacedIs(lab: map<Key, int>, key: Key)
    ensures key in MarksOf(lab).placed <==> key in lab && lab[key] < 0
    ensures key in MarksOf(lab).pending <==> key in lab && lab[key] > 0
  {
  }

  lemma EventAdvances(al: ActList, e: Enc, s: nat, next: int, it: Step, vals: seq<int>, lbl: Labels)
    requires Good(al, e, s, next) && Sized(e) && s < |e.bufs| && (IsRel(al, it) || IsLabel(al, it))
    requires it == NewStep(al, e, s, it.start, it.p, it.n, |e.lbl.hist|)
    requires lbl.hist == e.lbl.hist + EventsOn(al, s, it) && MarksOf(lbl.lab) == MarksOn(al, it, MarksOf(e.lbl.lab))
    ensures TraceOf(WithEvent(e, s, it, vals, lbl), s) == Advance(al, TraceOf(e, s), it.start, it.p, it.n)
  {
    hide Good, SectionsOk, MaxOf, EndIdx, MarksOf, EventsOn, MarksOn, IsRel, IsLabel;
    GoodSections(al, e, s, next);
    StepAgrees(al, e, s, next, it.start, it.p, it.n);
    SameKind(al, it, StepOn(al, e.walk[s], |e.lbl.hist|, it.start, it.p, it.n));
  }

  lemma SameKind(al: ActList, a: Step, b: Step)
    requires a.start == b.start && a.p == b.p
    ensures IsRel(al, a) == IsRel(al, b) && IsLabel(al, a) == IsLabel(al, b)
  {
  }

  lemma BoundAdvances(al: ActList, e: Enc, s: nat, next: int, it: Step, vals: seq<int>, key: Key)
    requires Good(al, e, s, next) && Sized(e) && s < |e.bufs| && IsRel(al, it)
    requires it == NewStep(al, e, s, it.start, it.p, it.n, |e.lbl.hist|)
    requires key == KeyOf(al, it) && !FwdOf(al, it) && key in e.lbl.lab && e.lbl.lab[key] < 0 && key in e.lbl.last
    ensures TraceOf(WithEvent(e, s, it, vals, RefBound(e.lbl, key, Pos(s, it.idx))), s)
            == Advance(al, TraceOf(e, s), it.start, it.p, it.n)
  {
    hide Good, NewStep, MarksOf, KeyOf, FwdOf, Pos;
    PlacedIs(e.lbl.lab, key);
    EventAdvances(al, e, s, next, it, vals, RefBound(e.lbl, key, Pos(s, it.idx)));
  }

  lemma LinkedAdvances(al: ActList, e: Enc, s: nat, next: int, it: Step, vals: seq<int>, key: Key, fwd: bool)
    requires Good(al, e, s, next) && Sized(e) && s < |e.bufs| && IsRel(al, it)
    requires it == NewStep(al, e, s, it.start, it.p, it.n, |e.lbl.hist|)
    requires key == KeyOf(al, it) && fwd == FwdOf(al, it) && key in e.lbl.lab && key in e.lbl.pend
    requires fwd || e.lbl.lab[key] >= 0
    requires Pos(s, it.idx) > 0
    ensures TraceOf(WithEvent(e, s, it, vals, RefLinked(e.lbl, key, fwd, Pos(s, it.idx))), s)
            == Advance(al, TraceOf(e, s), it.start, it.p, it.n)
  {
    hide Good, NewStep, MarksOf, KeyOf, FwdOf, Pos;
    PlacedIs(e.lbl.lab, key);
    MarksLinked(e.lbl.lab, key, Pos(s, it.idx));
    EventAdvances(al, e, s, next, it, vals, RefLinked(e.lbl, key, fwd, Pos(s, it.idx)));
  }

  lemma LabelAdvances(al: ActList, e: Enc, s: nat, next: int, it: Step, vals: seq<int>, key: Key, b: Bufs)
    requires Good(al, e, s, next) && Sized(e) && s < |e.bufs| && IsLabel(al, it) && |b| == |e.bufs|
    requires it == NewStep(al, e, s, it.start, it.p, it.n, |e.lbl.hist|)
    requires key == KeyOf(al, it) && key in e.lbl.lab && key in e.lbl.pend && Pos(s, it.idx) > 0
    ensures TraceOf(WithEvent(e.(bufs := b), s, it, vals, LabelPlaced(e.lbl, key, Pos(s, it.idx))), s)
            == Advance(al, TraceOf(e, s), it.start, it.p, it.n)
  {
    hide Good, NewStep, MarksOf, KeyOf, FwdOf, Pos, Advance;
    MarksPlaced(e.lbl.lab, key, -Pos(s, it.idx));
    EventAdvances(al, e, s, next, it, vals, LabelPlaced(e.lbl, key, Pos(s, it.idx)));
  }
}

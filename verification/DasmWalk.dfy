/** How the three passes of DynASM walk over the section buffers: the start of every put
    and the arguments of its actions, in the order of the action list. */
module DasmWalk {
  import opened DasmLayout
  import opened DasmLabels

  type ActList = seq<Action>

  /** One step of the walk over a section: the start of a put or one action, its index in
      the action list, its argument, its first buffer index, the worst-case offset after it
      within the section, and its label event (or -1). */
  datatype Step = Step(start: bool, p: nat, n: int, idx: nat, o1: int, ev: int)

  function Act(al: ActList, p: int): Action {
    if 0 <= p < |al| then al[p] else Stop
  }

  function Op(al: ActList, p: int): Byte {
    if Act(al, p - 1).Literal() then al[p - 1].b else 0
  }

  predicate IsRel(al: ActList, it: Step) { !it.start && Act(al, it.p).Rel() }
  predicate IsLabel(al: ActList, it: Step) { !it.start && Act(al, it.p).Label() }

  /** Buffer positions that a step occupies. */
  function Slots(al: ActList, it: Step): nat {
    if it.start then 1 else
    match Act(al, it.p)
    case Imm(_) => 1
    case Space(_) => 1
    case RelLG(_) => 2
    case RelPC => 2
    case LabelLG(_) => 1
    case LabelPC => 1
    case Align(_) => 1
    case _ => 0
  }

  function Lift(al: ActList, it: Step, base: int, pos: int, link: int): Item {
    Item(it.start, Act(al, it.p), Op(al, it.p), it.n, base + it.o1, pos, link)
  }

  function MaxOf(al: ActList, it: Step): int { Lift(al, it, 0, 0, 0).Max() }

  /** The action after a step, or -1 at the end of a put. */
  function NextP(al: ActList, it: Step): int {
    if it.start then it.p else if Act(al, it.p).Ends() then -1 else it.p + 1
  }

  /** A put starts at the beginning of a block of the action list. */
  predicate StartOk(al: ActList, p: int) {
    0 <= p < |al| && (p == 0 || al[p - 1].Ends())
  }

  /** What the preprocessor guarantees about an action list. */
  predicate ListOk(al: ActList) {
    && |al| > 0 && al[|al| - 1].Ends()
    && forall p :: 0 <= p < |al| ==> ActionOk(al, p)
  }

  predicate ActionOk(al: ActList, p: int)
    requires 0 <= p < |al|
  {
    && (al[p].Rel() ==> Act(al, p - 1).Literal())
    && (al[p].Rel() && al[p - 1].b != 0xe9 && al[p - 1].b / 16 == 8 ==>
          Act(al, p - 2).Literal() && al[p - 2].b == 0x0f)
    && (al[p].Imm? && (al[p].kind.ImmWB? || al[p].kind.ImmDB?) ==>
          Act(al, p - 1).Literal() && Act(al, p - 2).Literal())
  }

  // ---------------------------------------------------------------- one section

  function EndIdx(al: ActList, w: seq<Step>, m: int): nat {
    if 0 < m <= |w| then w[m - 1].idx + Slots(al, w[m - 1]) else 0
  }

  function EndOfs(w: seq<Step>, m: int): int {
    if 0 < m <= |w| then w[m - 1].o1 else 0
  }

  function After(al: ActList, w: seq<Step>, m: int): int {
    if 0 < m <= |w| then NextP(al, w[m - 1]) else -1
  }

  /** Step m follows the one before it. */
  ghost predicate StepOk(al: ActList, w: seq<Step>, m: int)
    requires 0 <= m < |w|
  {
    var it := w[m];
    && it.p < |al|
    && it.idx == EndIdx(al, w, m)
    && it.o1 == EndOfs(w, m) + MaxOf(al, it) && MaxOf(al, it) >= 0
    && (if After(al, w, m) == -1 then it.start && StartOk(al, it.p)
        else !it.start && it.p == After(al, w, m))
  }

  /** The buffer holds what the put pass stored for step m. The first slot of a branch is
      left open: it belongs to the label threading. */
  ghost predicate Stored(al: ActList, buf: seq<int>, it: Step) {
    && it.idx + Slots(al, it) <= |buf|
    && (it.start ==> buf[it.idx] == it.p)
    && (!it.start ==>
          match Act(al, it.p)
          case Imm(_) => buf[it.idx] == it.n
          case Space(_) => buf[it.idx] == it.n
          case RelLG(_) => buf[it.idx + 1] == it.o1
          case RelPC => buf[it.idx + 1] == it.o1
          case LabelLG(_) => buf[it.idx] == it.o1
          case LabelPC => buf[it.idx] == it.o1
          case Align(_) => buf[it.idx] == it.o1
          case _ => true)
  }

  ghost predicate Walk(al: ActList, w: seq<Step>) {
    forall m :: 0 <= m < |w| ==> StepOk(al, w, m)
  }

  ghost predicate SecOk(al: ActList, w: seq<Step>, buf: seq<int>, ofs: int) {
    && Walk(al, w)
    && EndIdx(al, w, |w|) == |buf| && EndOfs(w, |w|) == ofs
    && (forall m :: 0 <= m < |w| ==> Stored(al, buf, w[m]))
  }

  lemma SecPush(al: ActList, w: seq<Step>, buf: seq<int>, ofs: int, it: Step, vals: seq<int>)
    requires SecOk(al, w, buf, ofs)
    requires it.p < |al| && it.idx == |buf| && it.o1 == ofs + MaxOf(al, it) && MaxOf(al, it) >= 0
    requires if After(al, w, |w|) == -1 then it.start && StartOk(al, it.p)
             else !it.start && it.p == After(al, w, |w|)
    requires |vals| == Slots(al, it) && Stored(al, buf + vals, it)
    ensures SecOk(al, w + [it], buf + vals, it.o1)
    ensures After(al, w + [it], |w| + 1) == NextP(al, it)
  {
    var w', buf' := w + [it], buf + vals;
    forall m | 0 <= m < |w'| ensures StepOk(al, w', m) {
      if m < |w| {
        assert StepOk(al, w, m);
        assert w'[m] == w[m] && (m > 0 ==> w'[m - 1] == w[m - 1]);
      }
    }
    forall m | 0 <= m < |w'| ensures Stored(al, buf', w'[m]) {
      if m < |w| {
        assert Stored(al, buf, w[m]);
      }
    }
  }

  lemma {:induction false} IdxMonotone(al: ActList, w: seq<Step>, j: nat, k: nat)
    requires Walk(al, w) && j < k < |w|
    ensures w[j].idx + Slots(al, w[j]) <= w[k].idx
    decreases k
  {
    assert StepOk(al, w, k);
    if j + 1 < k {
      IdxMonotone(al, w, j, k - 1);
    }
  }
}

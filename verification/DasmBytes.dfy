/** What every action of a program leaves in the final bytes, as a processor reads them. */
module DasmBytes {
  import opened DasmLayout
  import opened DasmLabels
  import opened DasmWalk
  import opened DasmState
  import opened DasmTrace
  import opened DasmFlat

  /** How a 2 byte field reads. */
  predicate Word16(out: seq<Byte>, a: int, n: int) {
    0 <= a && a + 2 <= |out| && out[a] as int + 0x100 * (out[a + 1] as int) == n
  }

  /** How a signed 1 byte field reads. */
  predicate Signed8At(out: seq<Byte>, a: int, n: int) { 0 <= a < |out| && Signed8(out[a..a + 1]) == n }

  /** How a signed 4 byte field reads, for a value that fits in one. */
  predicate Signed32At(out: seq<Byte>, a: int, n: int) {
    0 <= a && a + 4 <= |out| && (-0x80000000 <= n < 0x80000000 ==> Signed32(out[a..a + 4]) == n)
  }

  /** The immediate at offset a, behind an opcode `op` two bytes in front of it: a field of the size
      of its kind reads n. The two kinds with a short form have it when n fits in a signed byte;
      then the opcode is 2 higher, which makes the processor extend that byte. */
  predicate ImmReads(out: seq<Byte>, a: int, kind: ImmKind, n: int, op: Byte) {
    match kind
    case ImmS => Signed8At(out, a, n)
    case ImmB => ByteAt(out, a, n)
    case ImmW => Word16(out, a, n)
    case ImmD => Signed32At(out, a, n)
    case ImmWB =>
      if Int8(n) then ByteAt(out, a - 2, (op as int + 2) % 256) && Signed8At(out, a, n) else Word16(out, a, n)
    case ImmDB =>
      if Int8(n) then ByteAt(out, a - 2, (op as int + 2) % 256) && Signed8At(out, a, n) else Signed32At(out, a, n)
  }

  /** Bytes of the field of an immediate. */
  function Width(kind: ImmKind, n: int): int {
    match kind
    case ImmS => 1
    case ImmB => 1
    case ImmW => 2
    case ImmD => 4
    case ImmWB => if Int8(n) then 1 else 2
    case ImmDB => if Int8(n) then 1 else 4
  }

  ghost predicate Filled(out: seq<Byte>, a: int, b: int, fill: int) {
    0 <= a <= b <= |out| && forall i :: a <= i < b ==> out[i] == fill
  }

  /** Item i is a branch in one of its short forms. */
  ghost predicate ShortRel(f: seq<Item>, i: int) { 0 <= i < |f| && f[i].Rel() && Fin(f, i + 1) < Fin(f, i) + 4 }

  /** The byte of literal k is an opcode or prefix that a later item changes: a branch in its short
      form, or an immediate in its short form. */
  ghost predicate Changed(f: seq<Item>, k: int) {
    ShortRel(f, k + 1) || (ShortRel(f, k + 2) && f[k + 2].Shrink() == 4) || (0 <= k + 2 < |f| && f[k + 2].Short())
  }

  /** What item k leaves between its final offsets. */
  ghost predicate Left(f: seq<Item>, out: seq<Byte>, k: nat, act: Action, n: int) {
    k < |f| &&
    var a, b := Fin(f, k), Fin(f, k + 1);
    0 <= a <= b <= |out| &&
    match act
    case Lit(c) => b == a + 1 && (!Changed(f, k) ==> out[a] == c)
    case Esc(c) => b == a + 1 && (!Changed(f, k) ==> out[a] == c)
    case Imm(kind) =>
      && b == a + Width(kind, n)
      && (ImmFits(kind, n) ==> ImmReads(out, a, kind, n, if k >= 2 && f[k - 2].Literal() then f[k - 2].act.b else 0))
    case Space(fill) => b == a + n && Filled(out, a, b, fill)
    case Align(mask) => b % (mask + 1) == 0 && b <= a + mask && Filled(out, a, b, 0x90)
    case RelLG(_) => b == a || b == a + 1 || b == a + 4
    case RelPC => b == a || b == a + 1 || b == a + 4
    case _ => a == b
  }

  // ---------------------------------------------------------------- items that are no literals

  lemma Little1(n: int)
    ensures LittleEndian(n, 1) == [n % 256]
  {
    assert LittleEndian(n / 256, 0) == [];
  }

  lemma Little2(n: int)
    requires 0 <= n < 0x10000
    ensures var b := LittleEndian(n, 2); b[0] as int + 0x100 * (b[1] as int) == n
  {
    Little1(n / 256);
    assert LittleEndian(n, 2) == [n % 256] + LittleEndian(n / 256, 1);
  }

  /** A field behind the output so far. */
  lemma FieldReads(out: seq<Byte>, n: int, w: nat, r: seq<Byte>)
    requires r == out + LittleEndian(n, w)
    ensures w == 1 && Int8(n) ==> Signed8At(r, |out|, n)
    ensures w == 1 && 0 <= n < 0x100 ==> ByteAt(r, |out|, n)
    ensures w == 2 && 0 <= n < 0x10000 ==> Word16(r, |out|, n)
    ensures w == 4 ==> Signed32At(r, |out|, n)
  {
    hide LittleEndian, Signed8, Signed32;
    var e := LittleEndian(n, w);
    assert r[|out|..|out| + w] == e && (forall i :: 0 <= i < w ==> r[|out| + i] == e[i]);
    if w == 1 {
      Little1(n);
      if Int8(n) {
        Signed8Inverse(n);
      }
    } else if w == 2 && 0 <= n < 0x10000 {
      Little2(n);
    } else if w == 4 && -0x80000000 <= n < 0x80000000 {
      Signed32Inverse(n);
    }
  }

  lemma ImmediateReads(out: seq<Byte>, kind: ImmKind, n: int, op: Byte)
    requires Int8(n) && (kind.ImmWB? || kind.ImmDB?) ==> |out| >= 2 && out[|out| - 2] == op
    requires ImmFits(kind, n)
    ensures ImmReads(Immediate(out, kind, n), |out|, kind, n, op)
  {
    hide LittleEndian, Signed8At, Signed32At, Word16;
    var r := Immediate(out, kind, n);
    if Int8(n) && (kind.ImmWB? || kind.ImmDB?) {
      var o := out[|out| - 2 := (op as int + 2) % 256];
      FieldReads(o, n, 1, r);
      assert r[|out| - 2] == o[|out| - 2];
    } else {
      FieldReads(out, n, ImmSize(kind, n), r);
    }
  }

  /** An argument is accepted for a kind of immediate exactly when a field of that kind can hold it. */
  lemma FitsWhenHeld(kind: ImmKind, n: int)
    ensures ImmFits(kind, n) <==> exists out, a, op: Byte :: ImmReads(out, a, kind, n, op)
  {
    hide LittleEndian, Immediate;
    if ImmFits(kind, n) {
      var out: seq<Byte> := [0, 0];
      ImmediateReads(out, kind, n, 0);
      assert ImmReads(Immediate(out, kind, n), |out|, kind, n, 0);
    }
  }

  lemma WidthIs(kind: ImmKind, n: int)
    ensures Width(kind, n) == ImmSize(kind, n)
  {
  }

  lemma ReadsPrefix(out: seq<Byte>, pre: seq<Byte>, a: int, kind: ImmKind, n: int, op: Byte)
    requires ImmReads(pre, a, kind, n, op) && pre <= out
    ensures ImmReads(out, a, kind, n, op)
  {
    hide Signed8, Signed32;
    if 0 <= a {
      assert a + 1 <= |pre| ==> out[a..a + 1] == pre[a..a + 1];
      assert a + 4 <= |pre| ==> out[a..a + 4] == pre[a..a + 4];
    }
  }

  lemma FilledPrefix(out: seq<Byte>, pre: seq<Byte>, a: int, b: int, fill: int)
    requires Filled(pre, a, b, fill) && pre <= out
    ensures Filled(out, a, b, fill)
  {
  }

  /** The opcode of a short immediate is two bytes in front of it. */
  lemma ImmOpcode(f: seq<Item>, env: Env, k: nat)
    requires WellFormed(f) && k < |f| && f[k].Short()
    ensures k >= 2 && f[k - 2].Literal()
    ensures var out := Out(f, env, k); |out| >= 2 && out[|out| - 2] == f[k - 2].act.b
  {
    assert Placed(f, k);
    LiteralTail(f, env, k);
    LiteralTail(f, env, k - 1);
  }

  lemma ImmLeaves(f: seq<Item>, env: Env, k: nat, kind: ImmKind)
    requires WellFormed(f) && Resolved(f) && k < |f| && !f[k].start && f[k].act == Imm(kind)
    ensures Left(f, Out(f, env, |f|), k, f[k].act, f[k].n)
  {
    hide WellFormed, Resolved, Fin, Out, ImmReads, ImmFits, Immediate, Width;
    var out, n := Out(f, env, k), f[k].n;
    OffsetsIn(f, env, k);
    WidthIs(kind, n);
    ImmOffsets(f, k);
    var op: Byte := if k >= 2 && f[k - 2].Literal() then f[k - 2].act.b else 0;
    if f[k].Short() {
      ImmOpcode(f, env, k);
    }
    ImmOut(f, env, k, kind);
    OutKeeps(f, env, k, |f|);
    if ImmFits(kind, n) {
      ImmediateReads(out, kind, n, op);
      ReadsPrefix(Out(f, env, |f|), Out(f, env, k + 1), |out|, kind, n, op);
    }
  }

  lemma ImmOut(f: seq<Item>, env: Env, k: nat, kind: ImmKind)
    requires k < |f| && !f[k].start && f[k].act == Imm(kind)
    ensures Out(f, env, k + 1) == Immediate(Out(f, env, k), kind, f[k].n)
  {
  }

  lemma ImmOffsets(f: seq<Item>, k: nat)
    requires WellFormed(f) && k < |f| && !f[k].start && f[k].act.Imm?
    ensures Fin(f, k + 1) == Fin(f, k) + ImmSize(f[k].act.kind, f[k].n)
  {
    hide ImmSize;
    ItemFits(f, k);
  }

  /** The final offsets of an item lie in the output. */
  lemma OffsetsIn(f: seq<Item>, env: Env, k: nat)
    requires WellFormed(f) && Resolved(f) && k < |f|
    ensures |Out(f, env, k)| == Fin(f, k) && |Out(f, env, k + 1)| == Fin(f, k + 1)
    ensures 0 <= Fin(f, k) <= Fin(f, k + 1) <= |Out(f, env, |f|)|
  {
    hide WellFormed, Resolved, Fin, Out;
    OutLength(f, env, k);
    OutLength(f, env, k + 1);
    OutLength(f, env, |f|);
    FinMonotone(f, k, k + 1);
    FinMonotone(f, k + 1, |f|);
  }

  lemma FillLeaves(f: seq<Item>, env: Env, k: nat)
    requires WellFormed(f) && Resolved(f) && k < |f| && !f[k].start && (f[k].act.Space? || f[k].act.Align?)
    ensures Left(f, Out(f, env, |f|), k, f[k].act, f[k].n)
  {
    hide WellFormed, Resolved, Fin, Out, Padding;
    var out := Out(f, env, k);
    OffsetsIn(f, env, k);
    FillOut(f, env, k);
    OutKeeps(f, env, k, |f|);
    if f[k].act.Align? {
      Aligned(f, k);
      FilledPrefix(Out(f, env, |f|), Out(f, env, k + 1), Fin(f, k), Fin(f, k + 1), 0x90);
    } else {
      SpaceOffsets(f, k);
      FilledPrefix(Out(f, env, |f|), Out(f, env, k + 1), Fin(f, k), Fin(f, k + 1), f[k].act.fill);
    }
  }

  lemma SpaceOffsets(f: seq<Item>, k: nat)
    requires WellFormed(f) && k < |f| && !f[k].start && f[k].act.Space?
    ensures Fin(f, k + 1) == Fin(f, k) + f[k].n
  {
    ItemFits(f, k);
  }

  lemma FillOut(f: seq<Item>, env: Env, k: nat)
    requires k < |f| && !f[k].start && (f[k].act.Space? || f[k].act.Align?)
    ensures var out, r := Out(f, env, k), Out(f, env, k + 1);
            out <= r && forall i :: |out| <= i < |r| ==> r[i] == if f[k].act.Space? then f[k].act.fill else 0x90
  {
    hide Padding;
  }

  lemma RestLeaves(f: seq<Item>, env: Env, k: nat)
    requires WellFormed(f) && Resolved(f) && k < |f| && !f[k].start
    requires !f[k].act.Literal() && !f[k].act.Imm? && !f[k].act.Space? && !f[k].act.Align?
    ensures Left(f, Out(f, env, |f|), k, f[k].act, f[k].n)
  {
    hide WellFormed, Resolved, Fin, Out, Distance;
    OffsetsIn(f, env, k);
    ItemFits(f, k);
  }

  // ---------------------------------------------------------------- literals

  /** Item k changes no byte in front of it but opcodes of short forms. */
  lemma EmitByte(f: seq<Item>, env: Env, k: nat, out: seq<Byte>, i: nat)
    requires WellFormed(f) && Resolved(f) && k < |f| && |out| == Fin(f, k) && i < |out|
    requires f[k].Rel() && ItemCut(f, k) != 0 ==> i < |out| - (if f[k].Shrink() == 4 then 2 else 1)
    requires f[k].Short() ==> i != |out| - 2
    ensures i < |Emit(f, env, k, out)| && Emit(f, env, k, out)[i] == out[i]
  {
    hide WellFormed, Resolved, Fin, Cut, Distance, LittleEndian, Padding;
    ItemFits(f, k);
    LiteralRoom(f, k);
  }

  /** The byte of a literal that is not changed stays. */
  lemma {:induction false} LiteralKept(f: seq<Item>, env: Env, j: nat, k: nat)
    requires WellFormed(f) && Resolved(f) && j < k <= |f| && f[j].Literal() && !Changed(f, j)
    ensures var out := Out(f, env, k); 0 <= Fin(f, j) < |out| && out[Fin(f, j)] == f[j].act.b
    decreases k
  {
    hide WellFormed, Resolved, Fin, Emit, Changed;
    OutLength(f, env, j);
    LiteralFits(f, j);
    if k == j + 1 {
      LiteralTail(f, env, k);
    } else {
      LiteralKept(f, env, j, k - 1);
      OutLength(f, env, k - 1);
      FarEnough(f, j, k - 1);
      EmitByte(f, env, k - 1, Out(f, env, k - 1), Fin(f, j));
    }
  }

  /** Literal j lies in front of the bytes that item k changes. */
  lemma FarEnough(f: seq<Item>, j: nat, k: nat)
    requires WellFormed(f) && Resolved(f) && j < k < |f| && f[j].Literal() && !Changed(f, j)
    ensures Fin(f, j) < Fin(f, k)
    ensures f[k].Rel() && ItemCut(f, k) != 0 ==> Fin(f, j) < Fin(f, k) - (if f[k].Shrink() == 4 then 2 else 1)
    ensures f[k].Short() ==> Fin(f, j) != Fin(f, k) - 2
  {
    hide WellFormed, Resolved, Fin, Cut, Distance;
    LiteralFits(f, j);
    FinMonotone(f, j + 1, k);
    LiteralRoom(f, k);
    ItemFits(f, k);
    CutIsShort(f, k);
    if k >= j + 2 {
      FinMonotone(f, j + 1, k - 1);
    }
    if k >= j + 3 {
      FinMonotone(f, j + 1, k - 2);
    }
  }

  lemma CutIsShort(f: seq<Item>, k: nat)
    requires WellFormed(f) && k < |f|
    ensures f[k].Rel() && ItemCut(f, k) != 0 ==> ShortRel(f, k) && ItemCut(f, k) == f[k].Shrink()
  {
    hide Distance;
    ItemFits(f, k);
  }

  lemma LiteralLeaves(f: seq<Item>, env: Env, k: nat)
    requires WellFormed(f) && Resolved(f) && k < |f| && f[k].Literal()
    ensures Left(f, Out(f, env, |f|), k, f[k].act, f[k].n)
  {
    hide WellFormed, Resolved, Fin, Out, Changed;
    OffsetsIn(f, env, k);
    LiteralFits(f, k);
    if !Changed(f, k) {
      LiteralKept(f, env, k, |f|);
    }
  }

  /** Every item leaves in the final bytes what its action asks for. */
  lemma ItemLeaves(f: seq<Item>, env: Env, k: nat)
    requires WellFormed(f) && Resolved(f) && k < |f|
    ensures f[k].start ==> Fin(f, k + 1) == Fin(f, k)
    ensures !f[k].start ==> Left(f, Out(f, env, |f|), k, f[k].act, f[k].n)
  {
    hide WellFormed, Resolved, Fin, Out, Left;
    if f[k].start {
      ItemFits(f, k);
    } else if f[k].act.Literal() {
      LiteralLeaves(f, env, k);
    } else if f[k].act.Imm? {
      ImmLeaves(f, env, k, f[k].act.kind);
    } else if f[k].act.Space? || f[k].act.Align? {
      FillLeaves(f, env, k);
    } else {
      RestLeaves(f, env, k);
    }
  }

  // ---------------------------------------------------------------- arguments of immediates

  /** Every immediate of the trace has an argument that its kind can hold. */
  ghost predicate Fits(al: ActList, t: Trace) {
    forall s, m :: 0 <= s < |t.walk| && 0 <= m < |t.walk[s]| ==> StepFits(al, t.walk[s][m])
  }

  predicate StepFits(al: ActList, it: Step) {
    !it.start && Act(al, it.p).Imm? ==> ImmFits(Act(al, it.p).kind, it.n)
  }

  lemma AdvanceFits(al: ActList, lim: Limits, t: Trace, start: bool, p: nat, n: int)
    requires Fits(al, t) && (!start ==> p < |al| && Fault(lim, al[p], n, t.marks) == Ok)
    ensures Fits(al, Advance(al, t, start, p, n))
  {
    hide ImmFits, StepOn, MarksOn, EventsOn;
    if t.section < |t.walk| {
      StepFacts(al, t.walk[t.section], |t.hist|, start, p, n);
    }
  }

  lemma {:induction false} RunFits(al: ActList, lim: Limits, t: Trace, p: nat, args: seq<int>)
    requires Fits(al, t)
    ensures PutRun(al, lim, t, p, args).0 == Ok ==> Fits(al, PutRun(al, lim, t, p, args).1)
    decreases |al| - p
  {
    hide Fits, Advance, Fault;
    if p < |al| && Fault(lim, al[p], ArgFor(al[p], args), t.marks) == Ok {
      var n := ArgFor(al[p], args);
      AdvanceFits(al, lim, t, false, p, n);
      var t' := Advance(al, t, false, p, n);
      FitsSection(al, t', if al[p].Section? then al[p].n else 0);
      if !al[p].Ends() {
        RunFits(al, lim, t', p + 1, ArgsAfter(al[p], args));
      }
    }
  }

  lemma FitsSection(al: ActList, t: Trace, s: nat)
    requires Fits(al, t)
    ensures Fits(al, t.(section := s))
  {
  }

  /** A program of calls without an error has such arguments only. */
  lemma {:induction false} CallsFit(al: ActList, lim: Limits, t: Trace, calls: seq<Call>)
    requires Fits(al, t)
    ensures Calls(al, lim, t, calls).0 == Ok ==> Fits(al, Calls(al, lim, t, calls).1)
    decreases |calls|
  {
    hide Fits, Advance, PutRun;
    if calls != [] {
      var r := CallTrace(al, lim, t, calls[0]);
      match calls[0] {
        case Put(start, args) =>
          AdvanceFits(al, lim, t, true, start, 0);
          RunFits(al, lim, Advance(al, t, true, start, 0), start, args);
        case Check(secmatch) => CheckFits(al, t, secmatch);
      }
      if r.0 == Ok {
        CallsFit(al, lim, r.1, calls[1..]);
      }
    }
  }

  lemma CheckFits(al: ActList, t: Trace, secmatch: int)
    requires Fits(al, t)
    ensures Fits(al, CheckTrace(t, secmatch).1)
  {
  }

  lemma FreshFits(al: ActList, lim: Limits)
    ensures Fits(al, Fresh(lim))
  {
  }

  // ---------------------------------------------------------------- references to local labels

  ghost predicate DefinedBefore(hist: seq<Event>, key: Key, h: int) {
    exists d :: 0 <= d < h && d < |hist| && hist[d].def && hist[d].key == key
  }

  predicate LocalBack(e: Event) { !e.def && !e.fwd && e.key.LG? && e.key.i < 10 }

  /** Labels are only placed by a definition, and a backward reference to a local label has one
      behind it. */
  ghost predicate LocalsBehind(t: Trace) {
    && (forall key :: key in t.marks.placed ==> DefinedBefore(t.hist, key, |t.hist|))
    && (forall h :: 0 <= h < |t.hist| && LocalBack(t.hist[h]) ==> DefinedBefore(t.hist, t.hist[h].key, h))
  }

  lemma AdvanceBehind(al: ActList, lim: Limits, t: Trace, start: bool, p: nat, n: int)
    requires LocalsBehind(t) && (!start ==> p < |al| && Fault(lim, al[p], n, t.marks) == Ok)
    ensures LocalsBehind(Advance(al, t, start, p, n))
  {
    hide StepOn, ImmFits;
    if t.section < |t.walk| {
      var it := StepOn(al, t.walk[t.section], |t.hist|, start, p, n);
      StepFacts(al, t.walk[t.section], |t.hist|, start, p, n);
      var u := Advance(al, t, start, p, n);
      forall key: Key, h: nat | DefinedBefore(t.hist, key, h) ensures DefinedBefore(u.hist, key, h) {
        var d :| 0 <= d < h && d < |t.hist| && t.hist[d].def && t.hist[d].key == key;
        assert u.hist[d] == t.hist[d];
      }
      forall key | key in u.marks.placed ensures DefinedBefore(u.hist, key, |u.hist|) {
        if key in t.marks.placed {
          assert DefinedBefore(u.hist, key, |t.hist|);
        } else {
          assert u.hist[|t.hist|].def && u.hist[|t.hist|].key == key;
        }
      }
    }
  }

  lemma {:induction false} RunBehind(al: ActList, lim: Limits, t: Trace, p: nat, args: seq<int>)
    requires LocalsBehind(t)
    ensures PutRun(al, lim, t, p, args).0 == Ok ==> LocalsBehind(PutRun(al, lim, t, p, args).1)
    decreases |al| - p
  {
    hide LocalsBehind, Advance, Fault;
    if p < |al| && Fault(lim, al[p], ArgFor(al[p], args), t.marks) == Ok {
      var n := ArgFor(al[p], args);
      AdvanceBehind(al, lim, t, false, p, n);
      var t' := Advance(al, t, false, p, n);
      BehindSection(t', if al[p].Section? then al[p].n else 0);
      if !al[p].Ends() {
        RunBehind(al, lim, t', p + 1, ArgsAfter(al[p], args));
      }
    }
  }

  lemma BehindSection(t: Trace, s: nat)
    requires LocalsBehind(t)
    ensures LocalsBehind(t.(section := s))
  {
  }

  /** In a program of calls without an error, every backward reference to a local label has a
      definition behind it. */
  lemma {:induction false} CallsBehind(al: ActList, lim: Limits, t: Trace, calls: seq<Call>)
    requires LocalsBehind(t)
    ensures Calls(al, lim, t, calls).0 == Ok ==> LocalsBehind(Calls(al, lim, t, calls).1)
    decreases |calls|
  {
    hide LocalsBehind, Advance, PutRun;
    if calls != [] {
      var r := CallTrace(al, lim, t, calls[0]);
      match calls[0] {
        case Put(start, args) =>
          AdvanceBehind(al, lim, t, true, start, 0);
          RunBehind(al, lim, Advance(al, t, true, start, 0), start, args);
        case Check(secmatch) => CheckBehind(t, secmatch);
      }
      if r.0 == Ok {
        CallsBehind(al, lim, r.1, calls[1..]);
      }
    }
  }

  lemma CheckBehind(t: Trace, secmatch: int)
    requires LocalsBehind(t)
    ensures LocalsBehind(CheckTrace(t, secmatch).1)
  {
  }

  lemma FreshBehind(lim: Limits)
    ensures LocalsBehind(Fresh(lim))
  {
  }

  // ---------------------------------------------------------------- actions of the trace

  /** Step m of section s, read in the final bytes: the bytes of every action lie one after the
      other in the order of the trace, and are what the action and its argument ask for. */
  ghost predicate Written(al: ActList, walk: seq<seq<Step>>, f: seq<Item>, out: seq<Byte>, s: nat, m: nat) {
    s < |walk| && m < |walk[s]| &&
    var it, k := walk[s][m], Base(walk, s) + m;
    && (if it.start then k < |f| && Fin(f, k + 1) == Fin(f, k) else Left(f, out, k, Act(al, it.p), it.n))
    && (!it.start && Act(al, it.p).Imm? ==> ImmFits(Act(al, it.p).kind, it.n))
  }

  lemma StepWritten(al: ActList, e: Enc, t: Trace, f: seq<Item>, env: Env, s: nat, m: nat)
    requires Sized(e) && f == Program(al, e) && WellFormed(f) && Resolved(f) && Fits(al, t) && t.walk == e.walk
    requires s < |e.walk| && m < |e.walk[s]|
    ensures Written(al, t.walk, f, Out(f, env, |f|), s, m)
  {
    hide WellFormed, Resolved, Program, Out, Fin, Left, ImmFits;
    ProgramRel(al, e, s, m);
    ItemLeaves(f, env, Base(e.walk, s) + m);
    assert StepFits(al, t.walk[s][m]);
  }
}

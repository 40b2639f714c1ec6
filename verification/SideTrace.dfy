/** The head of a side trace in LuaJIT's assembler: code, emitted backwards, that
    carries every value inherited from the parent trace from the place where the parent
    left it to the places where the new trace expects it. */
module SideTrace {

  type Reg = nat

  const RID_MAX_GPR: nat := 16

  predicate IsFpr(r: Reg) { RID_MAX_GPR <= r }

  /** Where a value lives: a register, or a stack word relative to the stack pointer. */
  datatype Loc = R(reg: Reg) | S(ofs: int)

  /** Where the parent trace left an inherited value. */
  datatype Parent = InReg(reg: Reg) | InSpill(slot: nat)

  /** The register field of an IR instruction. */
  datatype Alloc = HasReg(reg: Reg) | NoReg

  datatype Ins = Ins(r: Alloc, s: nat, fp: bool, marked: bool)
  {
    predicate HasSpill() { s != 0 }
    predicate Used() { r.HasReg? || HasSpill() }
  }

  datatype Instr =
    | Mov(dst: Reg, src: Reg)
    | SpLoad(dst: Reg, ofs: int)
    | SpStore(ofs: int, src: Reg)
    | SpSub(delta: int)

  function Scale(slot: nat): int { 4 * slot }

  function ParentLoc(p: Parent): Loc {
    match p
    case InReg(r) => R(r)
    case InSpill(slot) => S(Scale(slot))
  }

  // ---------------------------------------------------------------- machine semantics

  /** Register file, stack memory by absolute address, and stack pointer. */
  datatype Machine<!V> = Machine(regs: Reg -> V, mem: int -> V, sp: int)
  {
    ghost function At(l: Loc): V {
      match l
      case R(r) => regs(r)
      case S(o) => mem(sp + o)
    }
  }

  ghost function Step<V>(ins: Instr, m: Machine<V>): Machine<V> {
    match ins
    case Mov(d, s) => m.(regs := (r: Reg) => if r == d then m.regs(s) else m.regs(r))
    case SpLoad(d, o) => m.(regs := (r: Reg) => if r == d then m.mem(m.sp + o) else m.regs(r))
    case SpStore(o, s) => m.(mem := (a: int) => if a == m.sp + o then m.regs(s) else m.mem(a))
    case SpSub(delta) => m.(sp := m.sp - delta)
  }

  ghost function Exec<V>(code: seq<Instr>, m: Machine<V>): Machine<V> {
    if code == [] then m else Exec(code[1..], Step(code[0], m))
  }

  /** The place, before `ins`, of the value that `l` names after it. */
  ghost function Back(ins: Instr, l: Loc): Loc {
    match ins
    case Mov(d, s) => if l == R(d) then R(s) else l
    case SpLoad(d, o) => if l == R(d) then S(o) else l
    case SpStore(o, s) => if l == S(o) then R(s) else l
    case SpSub(delta) => if l.S? then S(l.ofs - delta) else l
  }

  ghost function Source(code: seq<Instr>, l: Loc): Loc {
    if code == [] then l else Back(code[0], Source(code[1..], l))
  }

  /** Tracing a location backwards is sound for the forward machine semantics. */
  lemma {:induction false} SourceSound<V>(code: seq<Instr>, m: Machine<V>, l: Loc)
    ensures Exec(code, m).At(l) == m.At(Source(code, l))
  {
    if code != [] {
      SourceSound(code[1..], Step(code[0], m), l);
    }
  }

  // ---------------------------------------------------------------- register sets

  lemma MinExists(s: set<Reg>) returns (m: Reg)
    requires s != {}
    ensures m in s && forall x :: x in s ==> m <= x
  {
    var x :| x in s;
    m := x;
    var rest := s - {x};
    if rest != {} {
      var k := MinExists(rest);
      m := if k < x then k else x;
      forall y | y in s ensures m <= y {
        assert y == x || y in rest;
      }
    } else {
      assert s == {x};
    }
  }

  method PickBot(s: set<Reg>) returns (m: Reg)
    requires s != {}
    ensures m in s && forall x :: x in s ==> m <= x
  {
    ghost var w := MinExists(s);
    m :| m in s && forall x :: x in s ==> m <= x;
  }

  /** Errors the assembler raises instead of finishing the head of the trace. */
  datatype Outcome = Ok | TooComplex

  // ---------------------------------------------------------------- state and invariants

  /** The inputs: parentmap and allocated instructions by reference (index 0 is REF_BASE
      and unused), registers that carry something else, growth of the stack frame. */
  datatype Input = Input(parent: seq<Parent>, entry: seq<Ins>, pinned: set<Reg>, spdelta: nat)
  {
    predicate Ref(i: int) { 1 <= i < |entry| == |parent| }

    predicate UsedRef(i: int) { Ref(i) && entry[i].Used() }

    ghost predicate Static() {
      && |parent| == |entry|
      && (forall i :: Ref(i) && entry[i].r.HasReg? ==> IsFpr(entry[i].r.reg) == entry[i].fp)
      && (forall i :: Ref(i) && parent[i].InReg? ==> IsFpr(parent[i].reg) == entry[i].fp)
      && (forall i, j :: Ref(i) && Ref(j) && parent[i].InReg? && parent[i] == parent[j] ==> i == j)
      && (forall i, j :: Ref(i) && Ref(j) && entry[i].HasSpill() && entry[i].s == entry[j].s ==> i == j)
      && (forall i :: Ref(i) && parent[i].InReg? ==> parent[i].reg !in pinned)
    }
  }

  /** The assembler state: allocations, free registers, references held by allocated
      registers, registers no coalesced value depends on, parent registers still to be
      coalesced and their references; and, by reference, where the code emitted so far
      expects the value of its register target and of its spill slot target. */
  datatype State = State(ir: seq<Ins>, freeset: set<Reg>, cost: map<Reg, nat>, allow: set<Reg>,
                         live: set<Reg>, sloadins: map<Reg, nat>, regAt: seq<Loc>, slotAt: seq<Loc>)
  {
    /** Register r is allocated to reference i. */
    predicate Owns(r: Reg, i: int) { r !in freeset && r in cost && cost[r] == i }
  }

  ghost predicate Sized(inp: Input, st: State) {
    |inp.parent| == |inp.entry| == |st.ir| == |st.regAt| == |st.slotAt|
  }

  /** The one place where the code expects the value of reference i. */
  ghost function Cur(inp: Input, st: State, i: int): Loc
    requires Sized(inp, st) && inp.Ref(i)
  {
    if inp.entry[i].r.HasReg? then st.regAt[i] else st.slotAt[i]
  }

  ghost predicate Merged(inp: Input, st: State, i: int)
    requires Sized(inp, st) && inp.Ref(i)
  {
    inp.entry[i].r.HasReg? && inp.entry[i].HasSpill() ==> st.regAt[i] == st.slotAt[i]
  }

  /** The parent register of i waits for coalescing. */
  ghost predicate Linked(inp: Input, st: State, i: int)
    requires inp.Ref(i)
  {
    inp.parent[i].InReg? ==>
      var rp := inp.parent[i].reg;
      rp in st.live && rp in st.sloadins && st.sloadins[rp] == i && (rp in st.freeset || rp in st.cost)
  }

  /** The code already takes i from where the parent left it, and nothing emitted later
      can clobber that place. */
  ghost predicate Done(inp: Input, st: State, i: int)
    requires Sized(inp, st) && inp.Ref(i)
  {
    && Cur(inp, st, i) == ParentLoc(inp.parent[i])
    && (inp.parent[i].InReg? ==>
          var rp := inp.parent[i].reg; rp in st.freeset && rp !in st.allow && rp !in st.live)
  }

  ghost predicate HeldIn(inp: Input, st: State, i: int, r: Reg)
    requires Sized(inp, st) && inp.Ref(i)
  {
    st.ir[i].r == HasReg(r) && Cur(inp, st, i) == R(r) && IsFpr(r) == inp.entry[i].fp
  }

  /** The code expects i in the register allocated to it. */
  ghost predicate Held(inp: Input, st: State, i: int)
    requires Sized(inp, st) && inp.Ref(i)
  {
    && st.ir[i].r.HasReg?
    && HeldIn(inp, st, i, st.ir[i].r.reg)
    && st.Owns(st.ir[i].r.reg, i)
    && Linked(inp, st, i)
  }

  ghost predicate Common(inp: Input, st: State) {
    && inp.Static() && Sized(inp, st)
    && (forall r :: r in st.live ==>
          r in st.sloadins && inp.UsedRef(st.sloadins[r]) && inp.parent[st.sloadins[r]] == InReg(r))
    && (forall r :: r in st.cost && r !in st.freeset ==>
          inp.UsedRef(st.cost[r]) && HeldIn(inp, st, st.cost[r], r))
    && inp.pinned <= st.freeset && inp.pinned !! st.allow && inp.pinned !! st.live
  }

  /** During the shuffle each inherited value is done, or held with its parent in a register. */
  ghost predicate Shuffling(inp: Input, st: State) {
    && Common(inp, st)
    && (forall i :: inp.UsedRef(i) ==>
          Merged(inp, st, i) && (Done(inp, st, i) || (Held(inp, st, i) && inp.parent[i].InReg?)))
  }

  ghost function BackAll(ins: Instr, ls: seq<Loc>): (r: seq<Loc>)
    ensures |r| == |ls| && forall i :: 0 <= i < |ls| ==> r[i] == Back(ins, ls[i])
  {
    seq(|ls|, i requires 0 <= i < |ls| => Back(ins, ls[i]))
  }

  ghost function Emitted(ins: Instr, st: State): State {
    st.(regAt := BackAll(ins, st.regAt), slotAt := BackAll(ins, st.slotAt))
  }

  // ---------------------------------------------------------------- one step of the shuffle

  ghost function CoalesceStep(st: State, rp: Reg, r: Reg): State {
    Emitted(Mov(r, rp), st.(live := st.live - {rp}, allow := st.allow - {rp}, freeset := st.freeset + {r}))
  }

  lemma CoalesceKeeps(inp: Input, st: State, rp: Reg)
    requires Shuffling(inp, st) && rp in st.freeset && rp in st.live
    ensures rp in st.sloadins && st.sloadins[rp] < |st.ir|
    ensures var r := st.ir[st.sloadins[rp]].r;
            r.HasReg? && r.reg !in inp.pinned && Shuffling(inp, CoalesceStep(st, rp, r.reg))
  {
    var i := st.sloadins[rp];
    assert Held(inp, st, i);
    var r := st.ir[i].r.reg;
    var st' := CoalesceStep(st, rp, r);
    forall j | inp.UsedRef(j)
      ensures Merged(inp, st', j)
      ensures Done(inp, st', j) || (Held(inp, st', j) && inp.parent[j].InReg?)
    {
      if j == i {
        assert Done(inp, st', j);
      } else if Done(inp, st, j) {
        assert Done(inp, st', j);
      } else {
        assert Held(inp, st, j);
        assert st.ir[j].r.reg != r;
        assert Held(inp, st', j);
      }
    }
  }

  ghost function RenameStep(st: State, down: Reg, up: Reg, i: nat): State
    requires i < |st.ir|
  {
    Emitted(Mov(down, up), st.(ir := st.ir[i := st.ir[i].(r := HasReg(up))],
                               cost := st.cost[up := i][down := 0],
                               freeset := st.freeset + {down} - {up}))
  }

  lemma RenameKeeps(inp: Input, st: State, down: Reg, up: Reg)
    requires Shuffling(inp, st) && down in st.live && down !in st.freeset
    requires up in st.freeset && up !in st.live && up in st.allow && IsFpr(down) == IsFpr(up)
    ensures down in st.cost && st.cost[down] < |st.ir| && down !in inp.pinned
    ensures Shuffling(inp, RenameStep(st, down, up, st.cost[down]))
  {
    assert Held(inp, st, st.sloadins[down]);
    var i := st.cost[down];
    var st' := RenameStep(st, down, up, i);
    forall j | inp.UsedRef(j)
      ensures Merged(inp, st', j)
      ensures Done(inp, st', j) || (Held(inp, st', j) && inp.parent[j].InReg?)
    {
      if j == i {
        assert Held(inp, st, j);
        assert Held(inp, st', j);
      } else if Done(inp, st, j) {
        assert Done(inp, st', j);
      } else {
        assert Held(inp, st, j);
        assert Held(inp, st', j);
      }
    }
  }

  // ---------------------------------------------------------------- pass 1: scan

  /** Untouched so far: the code takes i from the targets of the trace body. */
  ghost predicate Fresh(inp: Input, st: State, i: int)
    requires Sized(inp, st) && inp.Ref(i)
  {
    && st.ir[i] == inp.entry[i] && !st.ir[i].marked
    && (inp.entry[i].r.HasReg? ==>
          st.regAt[i] == R(inp.entry[i].r.reg) && st.Owns(inp.entry[i].r.reg, i))
    && st.slotAt[i] == S(Scale(inp.entry[i].s))
    && (inp.parent[i].InReg? ==> inp.parent[i].reg in st.freeset || inp.parent[i].reg in st.cost)
  }

  /** Still expected in its spill slot, marked for a reload. */
  ghost predicate Waiting(inp: Input, st: State, i: int)
    requires Sized(inp, st) && inp.Ref(i)
  {
    && !inp.entry[i].r.HasReg? && inp.entry[i].HasSpill()
    && st.ir[i] == inp.entry[i].(marked := true)
    && st.slotAt[i] == S(Scale(inp.entry[i].s))
    && Linked(inp, st, i)
  }

  ghost predicate Scanned(inp: Input, st: State, i: int)
    requires Sized(inp, st) && inp.Ref(i)
  {
    if !inp.entry[i].Used() then !st.ir[i].marked else
      Merged(inp, st, i) && st.ir[i].s == inp.entry[i].s && st.ir[i].fp == inp.entry[i].fp &&
      ((Done(inp, st, i) && inp.parent[i].InReg? && !st.ir[i].marked) || (Held(inp, st, i) && !st.ir[i].marked)
       || Waiting(inp, st, i))
  }

  /** References above k have been scanned; the flags say which later passes are needed. */
  ghost predicate ScanState(inp: Input, st: State, k: nat, pass2: bool, pass3: bool, i: int)
    requires Sized(inp, st) && inp.Ref(i)
  {
    if i <= k then Fresh(inp, st, i)
    else
      && Scanned(inp, st, i)
      && (inp.entry[i].Used() && Waiting(inp, st, i) ==> pass2)
      && (inp.entry[i].Used() && Held(inp, st, i) && inp.parent[i].InSpill? ==> pass3)
  }

  ghost predicate Scanning(inp: Input, st: State, k: nat, pass2: bool, pass3: bool) {
    && Common(inp, st) && k < |inp.entry|
    && (forall i :: inp.Ref(i) ==> ScanState(inp, st, k, pass2, pass3, i))
    && (forall r :: r in st.allow && r !in st.freeset ==> r in st.cost && 1 <= st.cost[r] <= k)
    && (forall r :: r in st.live ==> k < st.sloadins[r])
  }

  /** First half of scanning i: its register is no longer allowed as a temporary, and a
      register with a spill slot is saved to it. */
  ghost function Claim(inp: Input, st: State, i: int): State
    requires Sized(inp, st) && inp.Ref(i)
  {
    var ins := st.ir[i];
    if ins.r.HasReg? then
      var st1 := st.(allow := st.allow - {ins.r.reg});
      if ins.HasSpill() then Emitted(SpStore(Scale(ins.s), ins.r.reg), st1) else st1
    else if ins.HasSpill() then st.(ir := st.ir[i := ins.(marked := true)])
    else st
  }

  /** Second half: coalesce a matching register, or register the dependency. */
  ghost function Depend(inp: Input, st: State, i: int): State
    requires Sized(inp, st) && inp.Ref(i)
  {
    var ins := st.ir[i];
    match inp.parent[i]
    case InReg(rp) =>
      if ins.r == HasReg(rp) then st.(freeset := st.freeset + {rp})
      else if ins.Used() then st.(live := st.live + {rp}, sloadins := st.sloadins[rp := i])
      else st
    case InSpill(_) => st
  }

  /** Scanning k leaves the references still to be scanned as they are. */
  lemma ScanBelow(inp: Input, st: State, k: nat, pass2: bool, pass3: bool, j: int)
    requires Scanning(inp, st, k, pass2, pass3) && 1 <= j < k
    ensures Fresh(inp, Depend(inp, Claim(inp, st, k), k), j)
  {
    assert ScanState(inp, st, k, pass2, pass3, k);
    assert ScanState(inp, st, k, pass2, pass3, j);
  }

  /** The first half of scanning k moves no other reference. */
  lemma ClaimAbove(inp: Input, st: State, k: nat, pass2: bool, pass3: bool, j: int)
    requires Scanning(inp, st, k, pass2, pass3) && 1 <= k < j < |inp.entry| && inp.entry[j].Used()
    ensures var st' := Claim(inp, st, k);
            && st'.ir[j] == st.ir[j] && Cur(inp, st', j) == Cur(inp, st, j) && Merged(inp, st', j)
            && st'.freeset == st.freeset && st'.cost == st.cost && st'.live == st.live
            && st'.sloadins == st.sloadins && st'.allow <= st.allow
  {
    assert ScanState(inp, st, k, pass2, pass3, k);
    assert ScanState(inp, st, k, pass2, pass3, j);
  }

  lemma AboveStays(inp: Input, st: State, k: nat, pass2: bool, pass3: bool, j: int)
    requires Scanning(inp, st, k, pass2, pass3) && 1 <= k < j < |inp.entry| && inp.entry[j].Used()
    ensures var st' := Depend(inp, Claim(inp, st, k), k);
            st'.ir[j] == st.ir[j] && Cur(inp, st', j) == Cur(inp, st, j) && Merged(inp, st', j)
  {
    ClaimAbove(inp, st, k, pass2, pass3, j);
  }

  lemma AboveDone(inp: Input, st: State, k: nat, pass2: bool, pass3: bool, j: int)
    requires Scanning(inp, st, k, pass2, pass3) && 1 <= k < j < |inp.entry| && inp.entry[j].Used()
    ensures Done(inp, st, j) ==> Done(inp, Depend(inp, Claim(inp, st, k), k), j)
  {
    ClaimAbove(inp, st, k, pass2, pass3, j);
  }

  lemma AboveLinked(inp: Input, st: State, k: nat, pass2: bool, pass3: bool, j: int)
    requires Scanning(inp, st, k, pass2, pass3) && 1 <= k < j < |inp.entry| && inp.entry[j].Used()
    ensures Linked(inp, st, j) ==> Linked(inp, Depend(inp, Claim(inp, st, k), k), j)
  {
    ClaimAbove(inp, st, k, pass2, pass3, j);
  }

  lemma AboveHeld(inp: Input, st: State, k: nat, pass2: bool, pass3: bool, j: int)
    requires Scanning(inp, st, k, pass2, pass3) && 1 <= k < j < |inp.entry| && inp.entry[j].Used()
    ensures Held(inp, st, j) ==> Held(inp, Depend(inp, Claim(inp, st, k), k), j)
  {
    hide Linked, Cur;
    assert ScanState(inp, st, k, pass2, pass3, k);
    ClaimAbove(inp, st, k, pass2, pass3, j);
    AboveStays(inp, st, k, pass2, pass3, j);
    AboveLinked(inp, st, k, pass2, pass3, j);
  }

  lemma AboveNotHeld(inp: Input, st: State, k: nat, pass2: bool, pass3: bool, j: int)
    requires Scanning(inp, st, k, pass2, pass3) && 1 <= k < j < |inp.entry| && inp.entry[j].Used()
    ensures Held(inp, Depend(inp, Claim(inp, st, k), k), j) ==> Held(inp, st, j)
  {
    hide Linked, Cur;
    assert ScanState(inp, st, k, pass2, pass3, j);
    ClaimAbove(inp, st, k, pass2, pass3, j);
    AboveStays(inp, st, k, pass2, pass3, j);
  }

  lemma AboveWaiting(inp: Input, st: State, k: nat, pass2: bool, pass3: bool, j: int)
    requires Scanning(inp, st, k, pass2, pass3) && 1 <= k < j < |inp.entry| && inp.entry[j].Used()
    ensures Waiting(inp, st, j) <==> Waiting(inp, Depend(inp, Claim(inp, st, k), k), j)
  {
    assert ScanState(inp, st, k, pass2, pass3, k);
    assert ScanState(inp, st, k, pass2, pass3, j);
    ClaimAbove(inp, st, k, pass2, pass3, j);
  }

  /** Scanning k leaves the references scanned before as they are. */
  lemma ScanAbove(inp: Input, st: State, k: nat, pass2: bool, pass3: bool, j: int)
    requires Scanning(inp, st, k, pass2, pass3) && 1 <= k < j < |inp.entry| && inp.entry[j].Used()
    ensures var st' := Depend(inp, Claim(inp, st, k), k);
            && st'.ir[j] == st.ir[j]
            && Cur(inp, st', j) == Cur(inp, st, j) && Merged(inp, st', j)
            && (Done(inp, st, j) ==> Done(inp, st', j))
            && (Held(inp, st, j) <==> Held(inp, st', j))
            && (Waiting(inp, st, j) <==> Waiting(inp, st', j))
  {
    hide Scanning, Claim, Depend, Cur, Merged, Done, Held, Waiting;
    AboveStays(inp, st, k, pass2, pass3, j);
    AboveDone(inp, st, k, pass2, pass3, j);
    AboveHeld(inp, st, k, pass2, pass3, j);
    AboveNotHeld(inp, st, k, pass2, pass3, j);
    AboveWaiting(inp, st, k, pass2, pass3, j);
  }

  lemma ScanSelf(inp: Input, st: State, k: nat, pass2: bool, pass3: bool)
    requires Scanning(inp, st, k, pass2, pass3) && k > 0
    ensures var st' := Depend(inp, Claim(inp, st, k), k);
            && Scanned(inp, st', k)
            && st'.ir[k].r == inp.entry[k].r
            && (forall r :: r in st'.allow && r !in st'.freeset ==> r in st'.cost && 1 <= st'.cost[r] <= k - 1)
  {
    assert ScanState(inp, st, k, pass2, pass3, k);
  }

  lemma ScanOwner(inp: Input, st: State, k: nat, pass2: bool, pass3: bool, r: Reg)
    requires Scanning(inp, st, k, pass2, pass3) && k > 0
    requires r in st.cost && r !in st.freeset
    ensures var st' := Depend(inp, Claim(inp, st, k), k);
            st'.cost == st.cost && inp.UsedRef(st.cost[r]) && HeldIn(inp, st', st.cost[r], r)
  {
    assert ScanState(inp, st, k, pass2, pass3, k);
    var j := st.cost[r];
    assert HeldIn(inp, st, j, r);
    if j < k {
      ScanBelow(inp, st, k, pass2, pass3, j);
    } else if j > k {
      ScanAbove(inp, st, k, pass2, pass3, j);
    }
  }

  lemma ScanCommon(inp: Input, st: State, k: nat, pass2: bool, pass3: bool)
    requires Scanning(inp, st, k, pass2, pass3) && k > 0
    ensures Common(inp, Depend(inp, Claim(inp, st, k), k))
  {
    hide Scanning, Claim, Depend, HeldIn;
    ScanPins(inp, st, k, pass2, pass3);
    var st' := Depend(inp, Claim(inp, st, k), k);
    forall r | r in st'.cost && r !in st'.freeset
      ensures inp.UsedRef(st'.cost[r]) && HeldIn(inp, st', st'.cost[r], r)
    {
      ScanOwner(inp, st, k, pass2, pass3, r);
    }
  }

  lemma ScanPins(inp: Input, st: State, k: nat, pass2: bool, pass3: bool)
    requires Scanning(inp, st, k, pass2, pass3) && k > 0
    ensures var st' := Depend(inp, Claim(inp, st, k), k);
            && inp.Static() && Sized(inp, st) && inp.Ref(k) && Sized(inp, Claim(inp, st, k)) && Sized(inp, st')
            && (forall r :: r in st'.live ==>
                  r in st'.sloadins && inp.UsedRef(st'.sloadins[r]) && inp.parent[st'.sloadins[r]] == InReg(r))
            && inp.pinned <= st'.freeset && inp.pinned !! st'.allow && inp.pinned !! st'.live
            && st'.cost == st.cost && st.freeset <= st'.freeset
  {
    hide Claim, Depend, HeldIn, Scanned;
    assert ScanState(inp, st, k, pass2, pass3, k);
    ClaimEffect(inp, st, k);
    DependEffect(inp, Claim(inp, st, k), k);
  }

  /** What the first half of a scan step does to the sets and the marks. */
  lemma ClaimEffect(inp: Input, st: State, k: nat)
    requires inp.Ref(k) && Sized(inp, st)
    ensures var st', ins := Claim(inp, st, k), st.ir[k];
            && Sized(inp, st') && st'.freeset == st.freeset && st'.cost == st.cost && st'.live == st.live
            && st'.sloadins == st.sloadins
            && st'.ir == (if !ins.r.HasReg? && ins.HasSpill() then st.ir[k := ins.(marked := true)] else st.ir)
            && st'.allow == (match ins.r case HasReg(r) => st.allow - {r} case NoReg => st.allow)
  {
    hide BackAll;
  }

  /** What the second half does. */
  lemma DependEffect(inp: Input, st: State, k: nat)
    requires inp.Ref(k) && Sized(inp, st)
    ensures var st', ins := Depend(inp, st, k), st.ir[k];
            && Sized(inp, st') && st.freeset <= st'.freeset && st'.cost == st.cost && st'.ir == st.ir
            && st'.allow == st.allow
            && if inp.parent[k].InReg? && ins.r != HasReg(inp.parent[k].reg) && ins.Used() then
              var p := inp.parent[k].reg;
              st'.live == st.live + {p} && st'.sloadins == st.sloadins[p := k]
            else st'.live == st.live && st'.sloadins == st.sloadins
  {
  }

  lemma ClaimFacts(inp: Input, st: State, k: nat, pass2: bool, pass3: bool)
    requires Scanning(inp, st, k, pass2, pass3) && k > 0
    ensures Sized(inp, st) && inp.Ref(k) && Sized(inp, Claim(inp, st, k))
    ensures st.ir[k].r.HasReg? ==> st.ir[k].r.reg !in inp.pinned
    ensures st.ir[k] == inp.entry[k]
  {
    assert ScanState(inp, st, k, pass2, pass3, k);
  }

  lemma ScanOne(inp: Input, st: State, k: nat, pass2: bool, pass3: bool, j: int)
    requires Scanning(inp, st, k, pass2, pass3) && k > 0 && inp.Ref(j)
    ensures var ins := inp.entry[k];
            ScanState(inp, Depend(inp, Claim(inp, st, k), k), k - 1,
                      pass2 || (!ins.r.HasReg? && ins.HasSpill()),
                      pass3 || (ins.r.HasReg? && inp.parent[k].InSpill?), j)
  {
    assert ScanState(inp, st, k, pass2, pass3, j);
    if j < k {
      ScanBelow(inp, st, k, pass2, pass3, j);
    } else if j == k {
      ScanSelf(inp, st, k, pass2, pass3);
    } else if inp.entry[j].Used() {
      ScanAbove(inp, st, k, pass2, pass3, j);
    }
  }

  lemma ScanLive(inp: Input, st: State, k: nat, pass2: bool, pass3: bool)
    requires Scanning(inp, st, k, pass2, pass3) && k > 0
    ensures Sized(inp, st) && inp.Ref(k) && st.ir[k] == inp.entry[k]
    ensures var st' := Depend(inp, Claim(inp, st, k), k);
            Sized(inp, st') && forall r :: r in st'.live ==> r in st'.sloadins && k - 1 < st'.sloadins[r]
  {
    assert ScanState(inp, st, k, pass2, pass3, k);
  }

  lemma ScanKeeps(inp: Input, st: State, k: nat, pass2: bool, pass3: bool)
    requires Scanning(inp, st, k, pass2, pass3) && k > 0
    ensures Sized(inp, st) && inp.Ref(k) && st.ir[k] == inp.entry[k]
    ensures var ins := inp.entry[k];
            Scanning(inp, Depend(inp, Claim(inp, st, k), k), k - 1,
                     pass2 || (!ins.r.HasReg? && ins.HasSpill()),
                     pass3 || (ins.r.HasReg? && inp.parent[k].InSpill?))
  {
    hide Claim, Depend, ScanState, Scanned, Common;
    ClaimFacts(inp, st, k, pass2, pass3);
    ScanLive(inp, st, k, pass2, pass3);
    ScanSelf(inp, st, k, pass2, pass3);
    ScanCommon(inp, st, k, pass2, pass3);
    var st', ins := Depend(inp, Claim(inp, st, k), k), inp.entry[k];
    forall j | inp.Ref(j)
      ensures ScanState(inp, st', k - 1,
                        pass2 || (!ins.r.HasReg? && ins.HasSpill()),
                        pass3 || (ins.r.HasReg? && inp.parent[k].InSpill?), j)
    {
      ScanOne(inp, st, k, pass2, pass3, j);
    }
  }

  // ---------------------------------------------------------------- pass 2: reload

  /** Already in the right stack word once the frame has grown. */
  ghost predicate SameSlot(inp: Input, st: State, i: int)
    requires Sized(inp, st) && inp.Ref(i)
  {
    && !inp.entry[i].r.HasReg? && inp.entry[i].HasSpill() && inp.parent[i].InSpill?
    && st.slotAt[i] == S(Scale(inp.entry[i].s))
    && Scale(inp.parent[i].slot) + inp.spdelta == Scale(inp.entry[i].s)
  }

  /** Marked references above k have been reloaded. */
  ghost predicate ReloadState(inp: Input, st: State, k: nat, pass3: bool, i: int)
    requires Sized(inp, st) && inp.Ref(i)
  {
    if !inp.entry[i].Used() then !st.ir[i].marked else
      && st.ir[i].s == inp.entry[i].s && st.ir[i].fp == inp.entry[i].fp
      && Merged(inp, st, i)
      && (|| (Done(inp, st, i) && inp.parent[i].InReg? && !st.ir[i].marked)
          || (Held(inp, st, i) && !st.ir[i].marked && (inp.parent[i].InSpill? ==> pass3))
          || (if i <= k then Waiting(inp, st, i) else SameSlot(inp, st, i)))
  }

  ghost predicate Reloading(inp: Input, st: State, k: nat, pass3: bool) {
    && Common(inp, st) && k < |inp.entry|
    && (forall i :: inp.Ref(i) ==> ReloadState(inp, st, k, pass3, i))
    && st.allow <= st.freeset
  }

  /** Reference i gets register r, which is saved to the spill slot of i. */
  ghost function Reload(inp: Input, st: State, i: int, r: Reg): State
    requires Sized(inp, st) && inp.Ref(i)
  {
    var st1 := st.(ir := st.ir[i := st.ir[i].(marked := false, r := HasReg(r))],
                   cost := st.cost[r := i],
                   freeset := st.freeset - {r},
                   allow := st.allow - {r});
    var st2 := Emitted(SpStore(Scale(st.ir[i].s), r), st1);
    if inp.parent[i] == InReg(r) then st2.(freeset := st2.freeset + {r}, live := st2.live - {r}) else st2
  }

  lemma ScanEnds(inp: Input, st: State, pass2: bool, pass3: bool)
    requires Scanning(inp, st, 0, pass2, pass3)
    ensures Reloading(inp, st, if pass2 then |inp.entry| - 1 else 0, pass3)
  {
    var k := if pass2 then |inp.entry| - 1 else 0;
    forall i | inp.Ref(i) ensures ReloadState(inp, st, k, pass3, i) {
      assert ScanState(inp, st, 0, pass2, pass3, i);
    }
  }

  lemma ScanStarts(inp: Input, st: State)
    requires inp.Static() && Sized(inp, st) && |inp.entry| > 0 && st.live == {}
    requires inp.pinned <= st.freeset && inp.pinned !! st.allow
    requires forall i :: inp.Ref(i) ==> Fresh(inp, st, i)
    requires forall r :: r in st.cost && r !in st.freeset ==>
               inp.Ref(st.cost[r]) && inp.entry[st.cost[r]].r == HasReg(r)
    requires forall r :: r in st.allow ==> r in st.freeset || r in st.cost
    ensures Scanning(inp, st, |inp.entry| - 1, false, false)
  {
    forall r | r in st.cost && r !in st.freeset
      ensures inp.UsedRef(st.cost[r]) && HeldIn(inp, st, st.cost[r], r)
    {
      assert Fresh(inp, st, st.cost[r]);
    }
  }

  lemma ReloadStays(inp: Input, st: State, k: nat, pass3: bool, r: Reg, j: int)
    requires Reloading(inp, st, k, pass3) && k > 0 && inp.UsedRef(k) && Waiting(inp, st, k)
    requires r in st.allow && IsFpr(r) == inp.entry[k].fp
    requires inp.UsedRef(j) && j != k
    ensures var st' := Reload(inp, st, k, r);
            st'.ir[j] == st.ir[j] && Merged(inp, st', j) && Cur(inp, st', j) == Cur(inp, st, j)
  {
    assert ReloadState(inp, st, k, pass3, k);
    assert ReloadState(inp, st, k, pass3, j);
  }

  lemma ReloadDone(inp: Input, st: State, k: nat, pass3: bool, r: Reg, j: int)
    requires Reloading(inp, st, k, pass3) && k > 0 && inp.UsedRef(k) && Waiting(inp, st, k)
    requires r in st.allow && IsFpr(r) == inp.entry[k].fp
    requires inp.UsedRef(j) && j != k
    requires Done(inp, st, j)
    ensures Done(inp, Reload(inp, st, k, r), j)
  {
    hide Cur;
    ReloadStays(inp, st, k, pass3, r, j);
  }

  lemma ReloadLinked(inp: Input, st: State, k: nat, pass3: bool, r: Reg, j: int)
    requires Reloading(inp, st, k, pass3) && k > 0 && inp.UsedRef(k) && Waiting(inp, st, k)
    requires r in st.allow && IsFpr(r) == inp.entry[k].fp
    requires inp.UsedRef(j) && j != k
    requires Linked(inp, st, j)
    ensures Linked(inp, Reload(inp, st, k, r), j)
  {
  }

  lemma ReloadHeld(inp: Input, st: State, k: nat, pass3: bool, r: Reg, j: int)
    requires Reloading(inp, st, k, pass3) && k > 0 && inp.UsedRef(k) && Waiting(inp, st, k)
    requires r in st.allow && IsFpr(r) == inp.entry[k].fp
    requires inp.UsedRef(j) && j != k
    requires Held(inp, st, j)
    ensures Held(inp, Reload(inp, st, k, r), j)
  {
    hide Cur, Linked;
    ReloadStays(inp, st, k, pass3, r, j);
    ReloadLinked(inp, st, k, pass3, r, j);
  }

  /** Reloading k leaves the other references as they are. */
  lemma ReloadOther(inp: Input, st: State, k: nat, pass3: bool, r: Reg, j: int)
    requires Reloading(inp, st, k, pass3) && k > 0 && inp.UsedRef(k) && Waiting(inp, st, k)
    requires r in st.allow && IsFpr(r) == inp.entry[k].fp
    requires inp.Ref(j) && j != k
    ensures ReloadState(inp, Reload(inp, st, k, r), k - 1, pass3, j)
  {
    hide Linked, Merged, Done, Held;
    assert ReloadState(inp, st, k, pass3, j);
    if inp.entry[j].Used() {
      ReloadStays(inp, st, k, pass3, r, j);
      if Done(inp, st, j) && inp.parent[j].InReg? && !st.ir[j].marked {
        ReloadDone(inp, st, k, pass3, r, j);
      } else if Held(inp, st, j) && !st.ir[j].marked {
        ReloadHeld(inp, st, k, pass3, r, j);
      } else if Waiting(inp, st, j) {
        ReloadLinked(inp, st, k, pass3, r, j);
      }
    }
  }

  lemma ReloadSelf(inp: Input, st: State, k: nat, pass3: bool, r: Reg)
    requires Reloading(inp, st, k, pass3) && k > 0 && inp.UsedRef(k) && Waiting(inp, st, k)
    requires r in st.allow && IsFpr(r) == inp.entry[k].fp
    ensures ReloadState(inp, Reload(inp, st, k, r), k - 1, pass3 || inp.parent[k].InSpill?, k)
  {
    assert ReloadState(inp, st, k, pass3, k);
  }

  lemma ReloadOwner(inp: Input, st: State, k: nat, pass3: bool, r: Reg, q: Reg)
    requires Reloading(inp, st, k, pass3) && k > 0 && inp.UsedRef(k) && Waiting(inp, st, k)
    requires r in st.allow && IsFpr(r) == inp.entry[k].fp
    requires q in st.cost && q !in st.freeset
    ensures var st' := Reload(inp, st, k, r);
            q in st'.cost && inp.UsedRef(st'.cost[q]) && HeldIn(inp, st', st'.cost[q], q)
  {
    assert HeldIn(inp, st, st.cost[q], q);
  }

  lemma ReloadCommon(inp: Input, st: State, k: nat, pass3: bool, r: Reg)
    requires Reloading(inp, st, k, pass3) && k > 0 && inp.UsedRef(k) && Waiting(inp, st, k)
    requires r in st.allow && IsFpr(r) == inp.entry[k].fp
    ensures Common(inp, Reload(inp, st, k, r))
  {
    var st' := Reload(inp, st, k, r);
    assert ReloadState(inp, st, k, pass3, k);
    forall q | q in st'.cost && q !in st'.freeset
      ensures inp.UsedRef(st'.cost[q]) && HeldIn(inp, st', st'.cost[q], q)
    {
      if q != r {
        ReloadOwner(inp, st, k, pass3, r, q);
      }
    }
  }

  lemma ReloadFacts(inp: Input, st: State, k: nat, pass3: bool)
    requires Reloading(inp, st, k, pass3) && k > 0
    ensures Sized(inp, st) && inp.Ref(k) && inp.Static()
    ensures st.ir[k].marked ==> inp.UsedRef(k) && Waiting(inp, st, k) && st.ir[k].fp == inp.entry[k].fp
  {
    assert ReloadState(inp, st, k, pass3, k);
  }

  lemma ReloadKeeps(inp: Input, st: State, k: nat, pass3: bool, r: Reg)
    requires Reloading(inp, st, k, pass3) && k > 0 && inp.UsedRef(k) && Waiting(inp, st, k)
    requires r in st.allow && IsFpr(r) == inp.entry[k].fp
    ensures Reloading(inp, Reload(inp, st, k, r), k - 1, pass3 || inp.parent[k].InSpill?)
  {
    ReloadCommon(inp, st, k, pass3, r);
    ReloadSelf(inp, st, k, pass3, r);
    var st', pass3' := Reload(inp, st, k, r), pass3 || inp.parent[k].InSpill?;
    forall j | inp.Ref(j)
      ensures ReloadState(inp, st', k - 1, pass3', j)
    {
      if j != k {
        ReloadOther(inp, st, k, pass3, r, j);
      }
    }
  }

  lemma ReloadAmple(inp: Input, st: State, k: nat, pass3: bool)
    requires Reloading(inp, st, k, pass3) && k > 0
    ensures Ample(inp, st.allow, k) ==> Ample(inp, st.allow, k - 1)
    ensures forall fpr :: Starved(st.allow, st.live, fpr) ==> !Ample(inp, st.allow, k)
  {
    hide Ample, Common;
    if Ample(inp, st.allow, k) {
      AmpleSkip(inp, st.allow, k);
      forall fpr ensures !Starved(st.allow, st.live, fpr) {
        AmpleNotStarved(inp, st, k, fpr);
      }
    }
  }

  lemma ReloadTakes(inp: Input, st: State, k: nat, r: Reg)
    requires Sized(inp, st) && inp.Ref(k) && Waiting(inp, st, k) && IsFpr(r) == inp.entry[k].fp
    ensures Ample(inp, st.allow, k) ==> Ample(inp, Reload(inp, st, k, r).allow, k - 1)
  {
    hide Ample;
    if Ample(inp, st.allow, k) {
      AmpleReload(inp, st.allow, r, k);
    }
  }

  lemma NoMask(allow: set<Reg>, live: set<Reg>, mask: set<Reg>, fpr: bool)
    requires mask == {} && forall r :: r in allow && IsFpr(r) == fpr ==> r in mask
    ensures Starved(allow, live, fpr)
  {
  }

  /** A reference that is not marked, or waits in the right stack word, is skipped. */
  lemma SkipKeeps(inp: Input, st: State, k: nat, pass3: bool)
    requires Reloading(inp, st, k, pass3) && k > 0
    requires st.ir[k].marked ==> inp.parent[k].InSpill? &&
                                 Scale(inp.parent[k].slot) + inp.spdelta == Scale(st.ir[k].s)
    ensures Reloading(inp, st.(ir := st.ir[k := st.ir[k].(marked := false)]), k - 1, pass3)
  {
    var st' := st.(ir := st.ir[k := st.ir[k].(marked := false)]);
    forall r | r in st'.cost && r !in st'.freeset
      ensures inp.UsedRef(st'.cost[r]) && HeldIn(inp, st', st'.cost[r], r)
    {
      assert HeldIn(inp, st, st.cost[r], r);
    }
    forall j | inp.Ref(j)
      ensures ReloadState(inp, st', k - 1, pass3, j)
    {
      assert ReloadState(inp, st, k, pass3, j);
    }
  }

  // ---------------------------------------------------------------- pass 3: restore

  /** Every inherited value is done or held; spilled parents are only left in `work`. */
  ghost predicate Restoring(inp: Input, st: State, work: set<Reg>) {
    && Common(inp, st)
    && (forall i :: inp.UsedRef(i) ==> Merged(inp, st, i) && (Done(inp, st, i) || Held(inp, st, i)))
    && (forall i :: inp.UsedRef(i) && Held(inp, st, i) && inp.parent[i].InSpill? ==> st.ir[i].r.reg in work)
  }

  lemma ReloadEnds(inp: Input, st: State, pass3: bool, work: set<Reg>)
    requires Reloading(inp, st, 0, pass3)
    requires pass3 ==> forall r :: r in st.cost && r !in st.freeset ==> r in work
    ensures Restoring(inp, Emitted(SpSub(inp.spdelta), st), work)
  {
    var st' := Emitted(SpSub(inp.spdelta), st);
    forall r | r in st'.cost && r !in st'.freeset
      ensures inp.UsedRef(st'.cost[r]) && HeldIn(inp, st', st'.cost[r], r)
    {
      assert HeldIn(inp, st, st.cost[r], r);
    }
    forall i | inp.UsedRef(i)
      ensures Merged(inp, st', i) && (Done(inp, st', i) || Held(inp, st', i))
      ensures Held(inp, st', i) && inp.parent[i].InSpill? ==> st'.ir[i].r.reg in work
    {
      assert ReloadState(inp, st, 0, pass3, i);
      if SameSlot(inp, st, i) {
        assert Done(inp, st', i);
      }
    }
  }

  ghost function Restore(st: State, r: Reg, ofs: int): State {
    Emitted(SpLoad(r, ofs), st.(freeset := st.freeset + {r}))
  }

  lemma RestoreKeeps(inp: Input, st: State, r: Reg, work: set<Reg>)
    requires Restoring(inp, st, work) && r in st.cost && r !in st.freeset
    ensures inp.Ref(st.cost[r]) && r !in inp.pinned
    ensures match inp.parent[st.cost[r]]
            case InSpill(slot) => Restoring(inp, Restore(st, r, Scale(slot)), work - {r})
            case InReg(_) => Restoring(inp, st, work - {r})
  {
    var i := st.cost[r];
    assert HeldIn(inp, st, i, r);
    if inp.parent[i].InSpill? {
      var st' := Restore(st, r, Scale(inp.parent[i].slot));
      forall q | q in st'.cost && q !in st'.freeset
        ensures inp.UsedRef(st'.cost[q]) && HeldIn(inp, st', st'.cost[q], q)
      {
        assert HeldIn(inp, st, st.cost[q], q);
      }
      forall j | inp.UsedRef(j)
        ensures Merged(inp, st', j) && (Done(inp, st', j) || Held(inp, st', j))
        ensures Held(inp, st', j) && inp.parent[j].InSpill? ==> st'.ir[j].r.reg in work - {r}
      {
        assert Done(inp, st, j) || Held(inp, st, j);
        assert j == i ==> Done(inp, st', j);
      }
    }
  }

  lemma RestoreEnds(inp: Input, st: State)
    requires Restoring(inp, st, {})
    ensures Shuffling(inp, st)
  {
  }

  lemma ShuffleEnds(inp: Input, st: State, i: int)
    requires Shuffling(inp, st) && st.live == {} && inp.UsedRef(i)
    ensures Sized(inp, st) && Merged(inp, st, i) && Cur(inp, st, i) == ParentLoc(inp.parent[i])
  {
  }

  // ---------------------------------------------------------------- registers to spare

  /** Registers of a class that may be used as temporaries and are neither the target of an
      inherited value nor where the parent left one. */
  ghost function Spares(inp: Input, allow: set<Reg>, fpr: bool): set<Reg> {
    set r | r in allow && IsFpr(r) == fpr && !Mentioned(inp, r)
  }

  ghost predicate Mentioned(inp: Input, r: Reg) {
    exists i :: inp.Ref(i) && (inp.entry[i].r == HasReg(r) || inp.parent[i] == InReg(r))
  }

  /** How many of the first k inherited values of a class are expected in a spill slot only. */
  ghost function Reloads(inp: Input, fpr: bool, k: nat): nat {
    if k == 0 then 0
    else Reloads(inp, fpr, k - 1) + (if inp.Ref(k) && SlotOnly(inp, k) && inp.entry[k].fp == fpr then 1 else 0)
  }

  predicate SlotOnly(inp: Input, i: int) {
    inp.Ref(i) && !inp.entry[i].r.HasReg? && inp.entry[i].HasSpill()
  }

  /** There are more registers to spare than the reloads of the first k values can take. */
  ghost predicate Ample(inp: Input, allow: set<Reg>, k: nat) {
    forall fpr :: |Spares(inp, allow, fpr)| > Reloads(inp, fpr, k)
  }

  lemma AmpleMentioned(inp: Input, allow: set<Reg>, r: Reg, k: nat)
    requires Mentioned(inp, r)
    ensures Ample(inp, allow - {r}, k) <==> Ample(inp, allow, k)
  {
    forall fpr ensures Spares(inp, allow - {r}, fpr) == Spares(inp, allow, fpr) {
    }
  }

  /** A reload takes one register of its own class. */
  lemma AmpleReload(inp: Input, allow: set<Reg>, r: Reg, k: nat)
    requires Ample(inp, allow, k) && k > 0 && SlotOnly(inp, k) && IsFpr(r) == inp.entry[k].fp
    ensures Ample(inp, allow - {r}, k - 1)
  {
    forall fpr ensures |Spares(inp, allow - {r}, fpr)| > Reloads(inp, fpr, k - 1) {
      var a, b := Spares(inp, allow, fpr), Spares(inp, allow - {r}, fpr);
      assert |a| > Reloads(inp, fpr, k);
      if IsFpr(r) == fpr {
        assert b == a - {r};
      } else {
        assert b == a;
      }
    }
  }

  lemma AmpleSkip(inp: Input, allow: set<Reg>, k: nat)
    requires Ample(inp, allow, k) && k > 0
    ensures Ample(inp, allow, k - 1)
  {
    forall fpr ensures |Spares(inp, allow, fpr)| > Reloads(inp, fpr, k - 1) {
      assert |Spares(inp, allow, fpr)| > Reloads(inp, fpr, k);
    }
  }

  lemma ClaimAmple(inp: Input, st: State, i: int)
    requires Sized(inp, st) && inp.Ref(i) && st.ir[i] == inp.entry[i] && Sized(inp, Claim(inp, st, i))
    ensures forall k :: Ample(inp, st.allow, k) ==> Ample(inp, Depend(inp, Claim(inp, st, i), i).allow, k)
  {
    hide Ample, Mentioned;
    if st.ir[i].r.HasReg? {
      MentionedBy(inp, i, st.ir[i].r.reg);
      forall k: nat ensures Ample(inp, st.allow, k) ==> Ample(inp, st.allow - {st.ir[i].r.reg}, k) {
        AmpleMentioned(inp, st.allow, st.ir[i].r.reg, k);
      }
    }
  }

  lemma MentionedBy(inp: Input, i: int, r: Reg)
    requires inp.Ref(i) && (inp.entry[i].r == HasReg(r) || inp.parent[i] == InReg(r))
    ensures Mentioned(inp, r)
  {
  }

  lemma AmpleSpare(inp: Input, allow: set<Reg>, k: nat, fpr: bool) returns (r: Reg)
    requires Ample(inp, allow, k)
    ensures r in allow && IsFpr(r) == fpr && !Mentioned(inp, r)
  {
    assert |Spares(inp, allow, fpr)| > Reloads(inp, fpr, k);
    r :| r in Spares(inp, allow, fpr);
  }

  /** Every register of a class that may be a temporary holds a value still to be moved. */
  ghost predicate Starved(allow: set<Reg>, live: set<Reg>, fpr: bool) {
    forall r :: r in allow && IsFpr(r) == fpr ==> r in live
  }

  lemma AmpleNotStarved(inp: Input, st: State, k: nat, fpr: bool)
    requires Common(inp, st) && Ample(inp, st.allow, k)
    ensures !Starved(st.allow, st.live, fpr)
  {
    hide Common, Mentioned, Ample;
    forall r | r in st.live ensures Mentioned(inp, r) {
      LiveMentioned(inp, st, r);
    }
    var r := AmpleSpare(inp, st.allow, k, fpr);
  }

  lemma LiveMentioned(inp: Input, st: State, r: Reg)
    requires Common(inp, st) && r in st.live
    ensures Mentioned(inp, r)
  {
    assert inp.Ref(st.sloadins[r]) && inp.parent[st.sloadins[r]] == InReg(r);
  }

  // ---------------------------------------------------------------- cycles only

  /** Temporaries are free or held. */
  ghost predicate Known(st: State) {
    forall r :: r in st.allow ==> r in st.freeset || r in st.cost
  }

  ghost function HeldRegs(st: State): set<Reg> {
    set r | r in st.cost && r !in st.freeset
  }

  /** A register still held by an inherited value waits for a live parent register. */
  lemma HeldWaits(inp: Input, st: State, r: Reg)
    requires Shuffling(inp, st) && r in HeldRegs(st)
    ensures r in st.cost && inp.UsedRef(st.cost[r]) && HeldIn(inp, st, st.cost[r], r)
    ensures inp.parent[st.cost[r]].InReg? && WaitsFor(inp, st, r) in st.live
  {
    var i := st.cost[r];
    assert HeldIn(inp, st, i, r);
    assert Done(inp, st, i) || Held(inp, st, i);
  }

  lemma LiveHeld(inp: Input, st: State, r: Reg)
    requires Shuffling(inp, st) && r in st.live && r !in st.freeset
    ensures r in HeldRegs(st)
  {
    assert Held(inp, st, st.sloadins[r]);
  }

  ghost function Image(s: set<Reg>, f: map<Reg, Reg>): set<Reg> {
    set r | r in s && r in f :: f[r]
  }

  lemma {:induction false} ImageSize(s: set<Reg>, f: map<Reg, Reg>)
    requires forall r :: r in s ==> r in f
    requires forall a, b :: a in s && b in s && f[a] == f[b] ==> a == b
    ensures |Image(s, f)| == |s|
  {
    if s != {} {
      var x :| x in s;
      ImageSize(s - {x}, f);
      assert Image(s, f) == Image(s - {x}, f) + {f[x]};
    }
  }

  /** The parent register that a register still held waits for. */
  ghost function WaitsFor(inp: Input, st: State, r: Reg): Reg {
    if r in st.cost && inp.Ref(st.cost[r]) && inp.parent[st.cost[r]].InReg? then inp.parent[st.cost[r]].reg else 0
  }

  lemma WaitsApart(inp: Input, st: State, a: Reg, b: Reg)
    requires Shuffling(inp, st) && a in HeldRegs(st) && b in HeldRegs(st)
             && WaitsFor(inp, st, a) == WaitsFor(inp, st, b)
    ensures a == b
  {
    hide Shuffling;
    HeldWaits(inp, st, a);
    HeldWaits(inp, st, b);
    SameHeld(inp, st, a, b);
  }

  /** No more registers are held than are live. */
  lemma HeldNotMore(inp: Input, st: State)
    requires Shuffling(inp, st)
    ensures |HeldRegs(st)| <= |st.live|
  {
    hide Shuffling, HeldRegs;
    var held := HeldRegs(st);
    var f := map r | r in held :: WaitsFor(inp, st, r);
    forall r | r in held ensures f[r] in st.live {
      HeldWaits(inp, st, r);
    }
    forall a, b | a in held && b in held && f[a] == f[b] ensures a == b {
      WaitsApart(inp, st, a, b);
    }
    ImageSize(held, f);
    SubsetSize(Image(held, f), st.live);
  }

  /** When no live register is free, what is left are cycles: the registers held are the live
      ones, so that every other temporary is free. */
  lemma OnlyCycles(inp: Input, st: State)
    requires Shuffling(inp, st) && forall r :: r in st.live ==> r !in st.freeset
    ensures HeldRegs(st) == st.live
    ensures Known(st) ==> forall r :: r in st.allow && r !in st.live ==> r in st.freeset
  {
    hide Shuffling;
    forall r | r in st.live ensures r in HeldRegs(st) {
      LiveHeld(inp, st, r);
    }
    HeldNotMore(inp, st);
    SubsetSize(st.live, HeldRegs(st));
    SubsetSame(st.live, HeldRegs(st));
  }

  lemma SameHeld(inp: Input, st: State, a: Reg, b: Reg)
    requires Shuffling(inp, st) && a in st.cost && b in st.cost && inp.UsedRef(st.cost[a]) && inp.UsedRef(st.cost[b])
    requires HeldIn(inp, st, st.cost[a], a) && HeldIn(inp, st, st.cost[b], b)
    requires inp.parent[st.cost[a]].InReg? && inp.parent[st.cost[a]] == inp.parent[st.cost[b]]
    ensures a == b
  {
  }

  lemma {:induction false} SubsetSize(a: set<Reg>, b: set<Reg>)
    requires a <= b
    ensures |a| <= |b|
  {
    if a != {} {
      var x :| x in a;
      SubsetSize(a - {x}, b - {x});
    }
  }

  lemma {:induction false} SubsetSame(a: set<Reg>, b: set<Reg>)
    requires a <= b && |a| == |b|
    ensures a == b
  {
    if a != {} {
      var x :| x in a;
      SubsetSame(a - {x}, b - {x});
      assert a == (a - {x}) + {x} && b == (b - {x}) + {x};
    } else {
      assert |b| == 0;
    }
  }

  /** A set of registers of one class that wait for each other. */
  ghost predicate Closed(inp: Input, st: State, c: set<Reg>, fpr: bool) {
    c != {} && forall r :: r in c ==> IsFpr(r) == fpr && r in HeldRegs(st) && WaitsFor(inp, st, r) in c
  }

  ghost predicate Cyclic(inp: Input, st: State, fpr: bool) {
    exists c :: Closed(inp, st, c, fpr)
  }

  /** Coalescing takes no register out of a cycle. */
  lemma CoalesceClosed(inp: Input, st: State, rp: Reg)
    requires Shuffling(inp, st) && rp in st.freeset && rp in st.live
    ensures rp in st.sloadins && st.sloadins[rp] < |st.ir| && st.ir[st.sloadins[rp]].r.HasReg?
    ensures var st' := CoalesceStep(st, rp, st.ir[st.sloadins[rp]].r.reg);
            forall c, fpr :: Closed(inp, st', c, fpr) <==> Closed(inp, st, c, fpr)
  {
    var i := st.sloadins[rp];
    assert Held(inp, st, i);
    var r := st.ir[i].r.reg;
    assert r in HeldRegs(st) && WaitsFor(inp, st, r) == rp && rp !in HeldRegs(st);
    var st' := CoalesceStep(st, rp, r);
    assert HeldRegs(st') == HeldRegs(st) - {r};
    forall q ensures WaitsFor(inp, st', q) == WaitsFor(inp, st, q) {
    }
  }

  /** When no live register is free, a class has cycles exactly when it has live registers. */
  lemma LiveCyclic(inp: Input, st: State, fpr: bool)
    requires Shuffling(inp, st) && forall r :: r in st.live ==> r !in st.freeset
    ensures Cyclic(inp, st, fpr) <==> !NoneLive(st.live, fpr)
  {
    hide Shuffling;
    OnlyCycles(inp, st);
    var c := set r | r in st.live && IsFpr(r) == fpr;
    forall r | r in c ensures WaitsFor(inp, st, r) in c {
      HeldWaits(inp, st, r);
      WaitsClass(inp, st, r);
    }
    if !NoneLive(st.live, fpr) {
      var q :| q in st.live && IsFpr(q) == fpr;
      assert q in c;
      assert Closed(inp, st, c, fpr);
    }
  }

  lemma WaitsClass(inp: Input, st: State, r: Reg)
    requires Shuffling(inp, st) && r in HeldRegs(st)
    ensures IsFpr(WaitsFor(inp, st, r)) == IsFpr(r)
  {
    HeldWaits(inp, st, r);
  }

  ghost predicate NoneLive(live: set<Reg>, fpr: bool) {
    forall r :: r in live ==> IsFpr(r) != fpr
  }

  lemma StarvedSame(allow: set<Reg>, live: set<Reg>, rp: Reg)
    requires rp in live
    ensures forall fpr :: Starved(allow - {rp}, live - {rp}, fpr) <==> Starved(allow, live, fpr)
  {
  }

  // ---------------------------------------------------------------- giving up, in terms of the input

  /** A value expected in a spill slot only, and not there already. */
  predicate Needed(inp: Input, i: int) {
    SlotOnly(inp, i) &&
    !(inp.parent[i].InSpill? && Scale(inp.parent[i].slot) + inp.spdelta == Scale(inp.entry[i].s))
  }

  function Last(inp: Input): nat { if |inp.entry| == 0 then 0 else |inp.entry| - 1 }

  /** How many of the first k values of a class need a register to be stored from. */
  ghost function Need(inp: Input, fpr: bool, k: nat): nat {
    if k == 0 then 0 else Need(inp, fpr, k - 1) + (if Needed(inp, k) && inp.entry[k].fp == fpr then 1 else 0)
  }

  ghost predicate Target(inp: Input, r: Reg, k: nat) {
    exists i :: k < i && inp.Ref(i) && inp.entry[i].r == HasReg(r)
  }

  /** The temporaries that are no target of a value above k. */
  ghost function Avail(inp: Input, allow: set<Reg>, k: nat): set<Reg> {
    set r | r in allow && !Target(inp, r, k)
  }

  ghost function Of(s: set<Reg>, fpr: bool): set<Reg> { set r | r in s && IsFpr(r) == fpr }

  /** More values of a class need a register than there are temporaries that are no targets. */
  ghost predicate Short(inp: Input, allow: set<Reg>, fpr: bool) {
    Need(inp, fpr, Last(inp)) > |Of(Avail(inp, allow, 0), fpr)|
  }

  /** The register a value is moved to: its target, or the one given to it for its store. */
  ghost function Home(inp: Input, given: map<nat, Reg>, i: nat): Alloc {
    if inp.Ref(i) && inp.entry[i].r.HasReg? then inp.entry[i].r
    else if i in given then HasReg(given[i]) else NoReg
  }

  /** Registers are given to the values above k that need one, each its own: the parent register
      unless it is a target or was given away before. */
  ghost predicate Choice(inp: Input, allow: set<Reg>, given: map<nat, Reg>, k: nat) {
    && (forall i :: i in given <==> i > k && Needed(inp, i))
    && (forall i :: i in given ==> given[i] in Of(Avail(inp, allow, 0), inp.entry[i].fp))
    && (forall i, j :: i in given && j in given && given[i] == given[j] ==> i == j)
    && (forall i :: i in given && inp.parent[i].InReg? ==> Hinted(inp, allow, given, i, inp.parent[i].reg))
  }

  ghost predicate Hinted(inp: Input, allow: set<Reg>, given: map<nat, Reg>, i: nat, p: Reg) {
    i in given && (given[i] == p || p !in Avail(inp, allow, 0) || exists j :: j in given && j > i && given[j] == p)
  }

  /** Value i has to be moved from parent register p. */
  ghost predicate MovesFrom(inp: Input, given: map<nat, Reg>, i: nat, p: Reg) {
    inp.UsedRef(i) && inp.parent[i] == InReg(p) && Home(inp, given, i) != HasReg(p)
  }

  /** Every temporary of a class is the home of a value or where the parent left one. */
  ghost predicate NoSpare(inp: Input, allow: set<Reg>, given: map<nat, Reg>, fpr: bool) {
    forall r :: r in allow && IsFpr(r) == fpr ==>
      exists i: nat :: inp.UsedRef(i) && (Home(inp, given, i) == HasReg(r) || inp.parent[i] == InReg(r))
  }

  /** Registers of a class, each of them the home of a value that the parent left in another one. */
  ghost predicate HasCycle(inp: Input, given: map<nat, Reg>, fpr: bool) {
    exists c :: CycleIn(inp, given, c, fpr)
  }

  ghost predicate CycleIn(inp: Input, given: map<nat, Reg>, c: set<Reg>, fpr: bool) {
    && c != {} && (forall r :: r in c ==> IsFpr(r) == fpr)
    && (forall r :: r in c ==>
          exists i: nat, p: Reg :: MovesFrom(inp, given, i, p) && Home(inp, given, i) == HasReg(r) && p in c)
  }

  /** What the scan of the values above k has found. */
  ghost predicate ScanTrack(inp: Input, st: State, k: nat, allow: set<Reg>, pass2: bool) {
    && |st.ir| == |inp.entry|
    && (forall i :: inp.Ref(i) ==>
          st.ir[i] == if i > k then inp.entry[i].(marked := SlotOnly(inp, i)) else inp.entry[i])
    && st.allow == Avail(inp, allow, k)
    && (forall p :: p in st.live <==> exists i: nat :: i > k && MovesFrom(inp, map[], i, p))
    && (!pass2 ==> forall i :: i > k ==> !SlotOnly(inp, i))
  }

  lemma ScanTrackStep(inp: Input, st: State, k: nat, allow: set<Reg>, pass2: bool)
    requires ScanTrack(inp, st, k, allow, pass2) && inp.Ref(k) && Sized(inp, st) && !inp.entry[k].marked
             && Sized(inp, Claim(inp, st, k))
    ensures ScanTrack(inp, Depend(inp, Claim(inp, st, k), k), k - 1, allow, pass2 || SlotOnly(inp, k))
  {
    hide Sized, Claim, Depend, Avail, MovesFrom;
    var st' := Depend(inp, Claim(inp, st, k), k);
    ScanEffect(inp, st, k);
    AvailStep(inp, allow, k);
    MovesStep(inp, k);
    forall p ensures p in st'.live <==> exists i: nat :: i > k - 1 && MovesFrom(inp, map[], i, p) {
      assert MovesFrom(inp, map[], k, p) ==> exists i: nat :: i > k - 1 && MovesFrom(inp, map[], i, p);
    }
  }

  /** What one step of the scan does to the sets and the marks. */
  lemma ScanEffect(inp: Input, st: State, k: nat)
    requires inp.Ref(k) && Sized(inp, st) && st.ir[k] == inp.entry[k] && Sized(inp, Claim(inp, st, k))
    ensures var st', ins := Depend(inp, Claim(inp, st, k), k), inp.entry[k];
            && st'.ir == (if SlotOnly(inp, k) then st.ir[k := ins.(marked := true)] else st.ir)
            && st'.allow == (match ins.r case HasReg(r) => st.allow - {r} case NoReg => st.allow)
            && st'.live == if inp.parent[k].InReg? && ins.r != HasReg(inp.parent[k].reg) && ins.Used()
                           then st.live + {inp.parent[k].reg} else st.live
  {
    hide Claim, Depend;
    ClaimEffect(inp, st, k);
    DependEffect(inp, Claim(inp, st, k), k);
  }

  lemma MovesStep(inp: Input, k: nat)
    requires inp.Ref(k)
    ensures forall p :: MovesFrom(inp, map[], k, p) <==>
                        inp.parent[k] == InReg(p) && inp.entry[k].r != HasReg(p) && inp.entry[k].Used()
  {
  }

  lemma AvailStep(inp: Input, allow: set<Reg>, k: nat)
    requires inp.Ref(k)
    ensures Avail(inp, allow, k - 1) == match inp.entry[k].r
                                        case HasReg(r) => Avail(inp, allow, k) - {r}
                                        case NoReg => Avail(inp, allow, k)
  {
  }

  /** What reloading the values above k has come to. */
  ghost predicate ReloadTrack(inp: Input, st: State, k: nat, allow: set<Reg>, given: map<nat, Reg>) {
    && |st.ir| == |inp.entry|
    && (forall i :: inp.Ref(i) && i <= k ==> st.ir[i] == inp.entry[i].(marked := SlotOnly(inp, i)))
    && (forall i :: inp.Ref(i) && i > k ==> st.ir[i].r == Home(inp, given, i))
    && Choice(inp, allow, given, k)
    && st.allow == Avail(inp, allow, 0) - given.Values
    && (forall p :: p in st.live <==> exists i: nat :: MovesFrom(inp, given, i, p))
    && (forall fpr :: |Of(st.allow, fpr)| + Need(inp, fpr, Last(inp))
                      == |Of(Avail(inp, allow, 0), fpr)| + Need(inp, fpr, k))
  }

  lemma TrackStarts(inp: Input, st: State, k: nat, allow: set<Reg>, pass2: bool)
    requires ScanTrack(inp, st, 0, allow, pass2) && k == (if pass2 then Last(inp) else 0)
    ensures ReloadTrack(inp, st, k, allow, map[])
  {
    if !pass2 {
      forall fpr ensures Need(inp, fpr, Last(inp)) == 0 {
        NeedNone(inp, fpr, Last(inp));
      }
    }
    forall p ensures p in st.live <==> exists i: nat :: MovesFrom(inp, map[], i, p) {
    }
  }

  lemma {:induction false} NeedNone(inp: Input, fpr: bool, k: nat)
    requires forall i :: i > 0 ==> !SlotOnly(inp, i)
    ensures Need(inp, fpr, k) == 0
  {
    if k > 0 {
      NeedNone(inp, fpr, k - 1);
    }
  }

  lemma TrackMarked(inp: Input, st: State, k: nat, allow: set<Reg>, given: map<nat, Reg>)
    requires ReloadTrack(inp, st, k, allow, given) && inp.Ref(k)
    ensures st.ir[k] == inp.entry[k].(marked := SlotOnly(inp, k))
    ensures Needed(inp, k) <==>
            st.ir[k].marked && !(inp.parent[k].InSpill? && Scale(inp.parent[k].slot) + inp.spdelta == Scale(st.ir[k].s))
  {
  }

  /** Value k needs no register. */
  lemma TrackSkip(inp: Input, st: State, k: nat, allow: set<Reg>, given: map<nat, Reg>)
    requires ReloadTrack(inp, st, k, allow, given) && inp.Ref(k) && !Needed(inp, k)
    ensures ReloadTrack(inp, st.(ir := st.ir[k := st.ir[k].(marked := false)]), k - 1, allow, given)
  {
    hide MovesFrom, Of;
  }

  /** Value k is given register r. */
  lemma TrackGives(inp: Input, st: State, k: nat, allow: set<Reg>, given: map<nat, Reg>, r: Reg)
    requires ReloadTrack(inp, st, k, allow, given) && Sized(inp, st) && inp.Static() && inp.Ref(k) && Needed(inp, k)
    requires r in Of(st.allow, inp.entry[k].fp)
    requires inp.parent[k].InReg? && inp.parent[k].reg in st.allow ==> r == inp.parent[k].reg
    ensures ReloadTrack(inp, Reload(inp, st, k, r), k - 1, allow, given[k := r])
  {
    hide Of, Reload, MovesFrom;
    var st', given' := Reload(inp, st, k, r), given[k := r];
    GiveChoice(inp, st, k, allow, given, r);
    GiveLive(inp, st, k, given, r, given');
    GiveCount(inp, st, k, allow, r);
    GiveRest(inp, st, k, allow, given, r);
  }

  lemma GiveChoice(inp: Input, st: State, k: nat, allow: set<Reg>, given: map<nat, Reg>, r: Reg)
    requires Choice(inp, allow, given, k) && inp.Ref(k) && Needed(inp, k)
    requires st.allow == Avail(inp, allow, 0) - given.Values && r in Of(st.allow, inp.entry[k].fp)
    requires inp.parent[k].InReg? && inp.parent[k].reg in st.allow ==> r == inp.parent[k].reg
    ensures Choice(inp, allow, given[k := r], k - 1)
    ensures st.allow - {r} == Avail(inp, allow, 0) - given[k := r].Values
  {
    hide Avail;
    var given' := given[k := r];
    assert k !in given;
    forall i | i in given ensures given'[i] == given[i] != r {
      assert given[i] in given.Values;
    }
    forall q ensures q in given'.Values <==> q in given.Values || q == r {
      if q in given.Values {
        var i :| i in given && given[i] == q;
        assert given'[i] == q;
      }
      assert given'[k] == r;
    }
    forall i | i in given' && inp.parent[i].InReg? ensures Hinted(inp, allow, given', i, inp.parent[i].reg) {
      var p := inp.parent[i].reg;
      if i == k {
        assert p in given.Values ==> exists j :: j in given && given'[j] == p;
      } else {
        assert Hinted(inp, allow, given, i, p);
        assert forall j :: j in given ==> given'[j] == given[j];
      }
    }
  }

  lemma GiveCount(inp: Input, st: State, k: nat, allow: set<Reg>, r: Reg)
    requires inp.Ref(k) && Needed(inp, k) && r in Of(st.allow, inp.entry[k].fp)
    ensures forall fpr ::
              |Of(st.allow - {r}, fpr)| + Need(inp, fpr, k) == |Of(st.allow, fpr)| + Need(inp, fpr, k - 1)
  {
    forall fpr ensures |Of(st.allow - {r}, fpr)| + Need(inp, fpr, k) == |Of(st.allow, fpr)| + Need(inp, fpr, k - 1) {
      if fpr == inp.entry[k].fp {
        assert Of(st.allow - {r}, fpr) == Of(st.allow, fpr) - {r};
      } else {
        assert Of(st.allow - {r}, fpr) == Of(st.allow, fpr);
      }
    }
  }

  lemma GiveLive(inp: Input, st: State, k: nat, given: map<nat, Reg>, r: Reg, given': map<nat, Reg>)
    requires Sized(inp, st) && inp.Static() && inp.Ref(k) && Needed(inp, k) && k !in given && given' == given[k := r]
    requires forall p :: p in st.live <==> exists i: nat :: MovesFrom(inp, given, i, p)
    ensures forall p :: p in Reload(inp, st, k, r).live <==> exists i: nat :: MovesFrom(inp, given', i, p)
  {
    var st' := Reload(inp, st, k, r);
    forall i: nat, p ensures MovesFrom(inp, given', i, p) <==> MovesFrom(inp, given, i, p) && (i == k ==> p != r) {
    }
    forall p ensures p in st'.live <==> exists i: nat :: MovesFrom(inp, given', i, p) {
      if inp.parent[k] == InReg(r) && p == r {
        forall i: nat ensures !MovesFrom(inp, given', i, p) {
        }
      } else if p in st.live {
        var i: nat :| MovesFrom(inp, given, i, p);
        assert MovesFrom(inp, given', i, p);
      } else {
        forall i: nat ensures !MovesFrom(inp, given', i, p) {
        }
      }
    }
  }

  lemma GiveRest(inp: Input, st: State, k: nat, allow: set<Reg>, given: map<nat, Reg>, r: Reg)
    requires Sized(inp, st) && inp.Ref(k) && Needed(inp, k)
    requires forall i :: inp.Ref(i) && i > k ==> st.ir[i].r == Home(inp, given, i)
    ensures var st' := Reload(inp, st, k, r);
            && |st'.ir| == |st.ir| && st'.allow == st.allow - {r} 
            && (forall i :: inp.Ref(i) && i < k ==> st'.ir[i] == st.ir[i])
            && (forall i :: inp.Ref(i) && i > k - 1 ==> st'.ir[i].r == Home(inp, given[k := r], i))
  {
  }

  /** No register is left for value k. */
  lemma TrackShort(inp: Input, st: State, k: nat, allow: set<Reg>, given: map<nat, Reg>)
    requires ReloadTrack(inp, st, k, allow, given) && inp.Ref(k) && Needed(inp, k)
    requires Of(st.allow, inp.entry[k].fp) == {}
    ensures Short(inp, allow, inp.entry[k].fp)
  {
  }

  lemma TrackEnough(inp: Input, st: State, allow: set<Reg>, given: map<nat, Reg>)
    requires ReloadTrack(inp, st, 0, allow, given)
    ensures forall fpr :: !Short(inp, allow, fpr)
  {
  }

  /** The temporaries left are all live exactly when the input has no register to spare. */
  lemma StarvedInput(inp: Input, st: State, allow: set<Reg>, given: map<nat, Reg>, fpr: bool)
    requires ReloadTrack(inp, st, 0, allow, given)
    ensures Starved(st.allow, st.live, fpr) <==> NoSpare(inp, allow, given, fpr)
  {
    hide Of;
    forall r | r in allow && IsFpr(r) == fpr
      ensures (r in st.allow ==> r in st.live) <==>
              exists i: nat :: inp.UsedRef(i) && (Home(inp, given, i) == HasReg(r) || inp.parent[i] == InReg(r))
    {
      SpareOne(inp, st, allow, given, r);
    }
  }

  lemma SpareOne(inp: Input, st: State, allow: set<Reg>, given: map<nat, Reg>, r: Reg)
    requires ReloadTrack(inp, st, 0, allow, given) && r in allow
    ensures (r in st.allow ==> r in st.live) <==>
            exists i: nat :: inp.UsedRef(i) && (Home(inp, given, i) == HasReg(r) || inp.parent[i] == InReg(r))
  {
    hide Of;
    if r !in st.allow {
      if Target(inp, r, 0) {
        var i: nat :| inp.Ref(i) && inp.entry[i].r == HasReg(r);
        assert inp.UsedRef(i) && Home(inp, given, i) == HasReg(r);
      } else {
        assert r in given.Values;
        var i: nat :| i in given && given[i] == r;
        assert inp.UsedRef(i) && Home(inp, given, i) == HasReg(r);
      }
    } else if r in st.live {
      var i: nat :| MovesFrom(inp, given, i, r);
      assert inp.UsedRef(i) && inp.parent[i] == InReg(r);
    } else {
      forall i: nat ensures !(inp.UsedRef(i) && (Home(inp, given, i) == HasReg(r) || inp.parent[i] == InReg(r))) {
        assert !MovesFrom(inp, given, i, r);
      }
    }
  }

  /** The values waiting for each other are the cycles of the input. */
  lemma CyclicInput(inp: Input, st: State, allow: set<Reg>, given: map<nat, Reg>, fpr: bool)
    requires ReloadTrack(inp, st, 0, allow, given) && Shuffling(inp, st)
    ensures Cyclic(inp, st, fpr) <==> HasCycle(inp, given, fpr)
  {
    hide ReloadTrack, Shuffling, MovesFrom, Home, HeldRegs, WaitsFor;
    forall c ensures Closed(inp, st, c, fpr) <==> CycleIn(inp, given, c, fpr) {
      if Closed(inp, st, c, fpr) {
        forall r | r in c
          ensures exists i: nat, p: Reg :: MovesFrom(inp, given, i, p) && Home(inp, given, i) == HasReg(r) && p in c
        {
          var i, p := HeldMoves(inp, st, allow, given, r);
        }
      }
      if CycleIn(inp, given, c, fpr) {
        forall r | r in c ensures r in HeldRegs(st) && WaitsFor(inp, st, r) in c {
          var i: nat, p: Reg :| MovesFrom(inp, given, i, p) && Home(inp, given, i) == HasReg(r) && p in c;
          MovesHeld(inp, st, allow, given, r, i, p);
        }
      }
    }
  }

  lemma HeldMoves(inp: Input, st: State, allow: set<Reg>, given: map<nat, Reg>, r: Reg) returns (i: nat, p: Reg)
    requires ReloadTrack(inp, st, 0, allow, given) && Shuffling(inp, st) && r in HeldRegs(st)
    ensures MovesFrom(inp, given, i, p) && Home(inp, given, i) == HasReg(r) && p == WaitsFor(inp, st, r)
  {
    hide Of, Choice, Avail;
    HeldWaits(inp, st, r);
    i, p := st.cost[r], WaitsFor(inp, st, r);
    var j: nat :| MovesFrom(inp, given, j, p);
    assert i == j;
  }

  lemma MovesHeld(inp: Input, st: State, allow: set<Reg>, given: map<nat, Reg>, r: Reg, i: nat, p: Reg)
    requires ReloadTrack(inp, st, 0, allow, given) && Shuffling(inp, st)
    requires MovesFrom(inp, given, i, p) && Home(inp, given, i) == HasReg(r)
    ensures r in HeldRegs(st) && WaitsFor(inp, st, r) == p
  {
    hide Of, Choice, Avail;
    assert p in st.live;
    assert Done(inp, st, i) || Held(inp, st, i);
  }

  // ---------------------------------------------------------------- the assembler

  /** By how much the code moves the stack pointer down. */
  ghost function Growth(code: seq<Instr>): int {
    if code == [] then 0 else (if code[0].SpSub? then code[0].delta else 0) + Growth(code[1..])
  }

  /** The word at this offset, after the head, is the spill slot of an inherited value. */
  ghost predicate Slot(inp: Input, ofs: int) {
    exists i :: inp.Ref(i) && inp.entry[i].HasSpill() && ofs == Scale(inp.entry[i].s)
  }

  /** The recorded traces are those of the code; pinned registers pass through it, and so do all
      words that are no spill slots of inherited values, which the stack adjustment renames. */
  ghost predicate Traced(inp: Input, code: seq<Instr>, regAt: seq<Loc>, slotAt: seq<Loc>) {
    && |regAt| == |slotAt| == |inp.entry| == |inp.parent|
    && (forall i :: inp.Ref(i) && inp.entry[i].r.HasReg? ==> Source(code, R(inp.entry[i].r.reg)) == regAt[i])
    && (forall i :: inp.Ref(i) && inp.entry[i].HasSpill() ==> Source(code, S(Scale(inp.entry[i].s))) == slotAt[i])
    && (forall r :: r in inp.pinned ==> Source(code, R(r)) == R(r))
    && (forall o :: !Slot(inp, o) ==> Source(code, S(o)) == S(o - Growth(code)))
  }

  lemma TracedEmit(inp: Input, code: seq<Instr>, regAt: seq<Loc>, slotAt: seq<Loc>, ins: Instr)
    requires Traced(inp, code, regAt, slotAt)
    requires ins.Mov? || ins.SpLoad? ==> ins.dst !in inp.pinned
    requires ins.SpStore? ==> Growth(code) == 0 && Slot(inp, ins.ofs)
    ensures Traced(inp, [ins] + code, BackAll(ins, regAt), BackAll(ins, slotAt))
    ensures Growth([ins] + code) == Growth(code) + if ins.SpSub? then ins.delta else 0
  {
    assert ([ins] + code)[1..] == code;
    forall o | !Slot(inp, o) ensures Source([ins] + code, S(o)) == S(o - Growth([ins] + code)) {
      assert Source(code, S(o)) == S(o - Growth(code));
    }
  }

  /** Traced backwards through the code, every target of an inherited value leads to where
      the parent left that value, pinned registers lead to themselves, and so do all words of
      memory but the spill slots of inherited values, seen from the stack pointer, which is moved
      down by the growth of the stack frame. */
  ghost predicate Delivers(inp: Input, code: seq<Instr>) {
    && |inp.entry| == |inp.parent|
    && (forall i :: inp.Ref(i) && inp.entry[i].r.HasReg? ==>
          Source(code, R(inp.entry[i].r.reg)) == ParentLoc(inp.parent[i]))
    && (forall i :: inp.Ref(i) && inp.entry[i].HasSpill() ==>
          Source(code, S(Scale(inp.entry[i].s))) == ParentLoc(inp.parent[i]))
    && (forall r :: r in inp.pinned ==> Source(code, R(r)) == R(r))
    && (forall o :: !Slot(inp, o) ==> Source(code, S(o)) == S(o - inp.spdelta))
    && Growth(code) == inp.spdelta
  }

  /** Run from the parent's machine state, the head of the trace leaves every inherited value in
      the register and in the spill slot the trace body expects. It moves the stack pointer down by
      the growth of the frame, keeps the pinned registers, and writes no word of memory but the
      spill slots of inherited values. */
  lemma HeadDelivers<V>(inp: Input, code: seq<Instr>, m: Machine<V>, i: int)
    requires Delivers(inp, code) && inp.Ref(i)
    ensures inp.entry[i].r.HasReg? ==>
              Exec(code, m).regs(inp.entry[i].r.reg) == m.At(ParentLoc(inp.parent[i]))
    ensures inp.entry[i].HasSpill() ==>
              Exec(code, m).At(S(Scale(inp.entry[i].s))) == m.At(ParentLoc(inp.parent[i]))
    ensures forall r :: r in inp.pinned ==> Exec(code, m).regs(r) == m.regs(r)
    ensures Exec(code, m).sp == m.sp - inp.spdelta
    ensures forall a :: !Slot(inp, a - Exec(code, m).sp) ==> Exec(code, m).mem(a) == m.mem(a)
  {
    hide Exec, Source, Growth, Slot;
    if inp.entry[i].r.HasReg? {
      SourceSound(code, m, R(inp.entry[i].r.reg));
    }
    SourceSound(code, m, S(Scale(inp.entry[i].s)));
    forall r | r in inp.pinned ensures Exec(code, m).regs(r) == m.regs(r) {
      SourceSound(code, m, R(r));
    }
    StackMoves(code, m);
    forall a | !Slot(inp, a - Exec(code, m).sp) ensures Exec(code, m).mem(a) == m.mem(a) {
      WordKept(code, m, a);
    }
  }

  lemma WordKept<V>(code: seq<Instr>, m: Machine<V>, a: int)
    requires var o := a - Exec(code, m).sp; Source(code, S(o)) == S(o - Growth(code))
    ensures Exec(code, m).mem(a) == m.mem(a)
  {
    hide Exec, Source, Growth;
    SourceSound(code, m, S(a - Exec(code, m).sp));
    StackMoves(code, m);
  }

  lemma {:induction false} StackMoves<V>(code: seq<Instr>, m: Machine<V>)
    ensures Exec(code, m).sp == m.sp - Growth(code)
  {
    if code != [] {
      StackMoves(code[1..], Step(code[0], m));
    }
  }

  // ---------------------------------------------------------------- spill slots

  const SPS_FIRST: nat := 2

  /** The words of a spill slot: a 64 bit value takes two. */
  function SlotEnd(wide: set<nat>, i: nat, s: nat): nat { if i in wide then s + 2 else s + 1 }

  /** Slot s of reference i shares no word with the slots handed out. */
  ghost predicate Clear(wide: set<nat>, slot: map<nat, nat>, i: nat, s: nat) {
    forall j :: j in slot && j != i ==> SlotEnd(wide, i, s) <= slot[j] || SlotEnd(wide, j, slot[j]) <= s
  }

  /** All slots handed out lie below `end` and share no word. */
  ghost predicate SlotsApart(wide: set<nat>, slot: map<nat, nat>, end: nat) {
    && (forall i :: i in slot ==> slot[i] > 0 && SlotEnd(wide, i, slot[i]) <= end)
    && (forall i :: i in slot ==> Clear(wide, slot, i, slot[i]))
  }

  lemma SlotAdded(wide: set<nat>, slot: map<nat, nat>, end: nat, i: nat, s: nat, end': nat)
    requires SlotsApart(wide, slot, end) && i !in slot && Clear(wide, slot, i, s) && s > 0
    requires end <= end' && SlotEnd(wide, i, s) <= end'
    ensures SlotsApart(wide, slot[i := s], end')
  {
    var t := slot[i := s];
    forall j | j in t ensures Clear(wide, t, j, t[j]) {
      assert j in slot ==> Clear(wide, slot, j, slot[j]);
    }
  }

  /** The spill slots by reference, and the counters: the next even slot and the next odd slot
      (or 0). References in `wide` are 64 bit values. */
  class SpillSlots {
    const wide: set<nat>
    var evenspill: nat
    var oddspill: nat
    var slot: map<nat, nat>

    ghost predicate Valid()
      reads this
    {
      && evenspill % 2 == 0 && evenspill > 0 && SlotsApart(wide, slot, evenspill)
      && (oddspill != 0 ==> oddspill < evenspill && forall i: nat :: i !in wide ==> Clear(wide, slot, i, oddspill))
    }

    constructor (wide: set<nat>)
      ensures Valid() && slot == map[] && this.wide == wide
    {
      this.wide, evenspill, oddspill, slot := wide, SPS_FIRST, 0, map[];
    }

    /** Force a spill: a value without slot gets one, of two aligned words if it is 64 bits wide;
        no two values ever share a word. */
    method Spill(i: nat) returns (ofs: int, overflow: bool)
      requires Valid()
      modifies this
      ensures old(i in slot) ==> !overflow && slot == old(slot) && ofs == Scale(slot[i])
      ensures !old(i in slot) ==> (overflow <==> evenspill > 256)
      ensures !overflow ==> Valid() && i in slot && slot == old(slot)[i := slot[i]] && ofs == Scale(slot[i])
      ensures !overflow && i in wide && !old(i in slot) ==> slot[i] % 2 == 0
    {
      hide SlotsApart, Clear;
      overflow := false;
      if i in slot { return Scale(slot[i]), false; }
      SlotsClear(wide, slot, evenspill, i);
      var s: nat;
      if i in wide {
        s := evenspill;
        evenspill := evenspill + 2;
        ClearAdded(wide, slot, i, s, oddspill);
      } else if oddspill != 0 {
        s := oddspill;
        oddspill := 0;
      } else {
        s := evenspill;
        oddspill := s + 1;
        evenspill := evenspill + 2;
        ClearNext(wide, slot, s, i);
      }
      SlotAdded(wide, slot, old(evenspill), i, s, evenspill);
      if evenspill > 256 { return Scale(s), true; }
      slot := slot[i := s];
      ofs := Scale(s);
    }

    /** Slots handed out are told apart by their number, as the head of a side trace relies on. */
    lemma SlotsDistinct(inp: Input)
      requires Valid() && forall i: nat :: inp.Ref(i) ==> inp.entry[i].s == if i in slot then slot[i] else 0
      ensures forall i, j ::
                inp.Ref(i) && inp.Ref(j) && inp.entry[i].HasSpill() && inp.entry[i].s == inp.entry[j].s ==> i == j
    {
      forall i: nat, j: nat | i in slot && j in slot && i != j ensures slot[i] != slot[j] {
        assert Clear(wide, slot, i, slot[i]);
      }
    }
  }

  lemma SlotsClear(wide: set<nat>, slot: map<nat, nat>, end: nat, i: nat)
    requires SlotsApart(wide, slot, end)
    ensures Clear(wide, slot, i, end)
  {
  }

  /** A wide slot above it leaves the odd slot clear. */
  lemma ClearAdded(wide: set<nat>, slot: map<nat, nat>, i: nat, s: nat, odd: nat)
    requires i in wide && (odd != 0 ==> odd < s && forall j: nat :: j !in wide ==> Clear(wide, slot, j, odd))
    ensures odd != 0 ==> forall j: nat :: j !in wide ==> Clear(wide, slot[i := s], j, odd)
  {
  }

  lemma ClearNext(wide: set<nat>, slot: map<nat, nat>, s: nat, i: nat)
    requires SlotsApart(wide, slot, s) && i !in wide
    ensures forall j: nat :: j !in wide ==> Clear(wide, slot[i := s], j, s + 1)
  {
  }

  // ---------------------------------------------------------------- the assembler object

  class Assembler {
    const inp: Input
    var ir: seq<Ins>
    var freeset: set<Reg>
    var cost: map<Reg, nat>
    var code: seq<Instr>            // in program order: emitting prepends
    var allow: set<Reg>
    var live: set<Reg>
    var sloadins: map<Reg, nat>
    ghost var regAt: seq<Loc>
    ghost var slotAt: seq<Loc>

    constructor (inp: Input, freeset: set<Reg>, cost: map<Reg, nat>, allow: set<Reg>)
      ensures this.inp == inp && ir == inp.entry && code == [] && live == {}
      ensures this.freeset == freeset && this.cost == cost && this.allow == allow
    {
      this.inp, ir, this.freeset, this.cost := inp, inp.entry, freeset, cost;
      this.allow, live, sloadins, code := allow, {}, map[], [];
      regAt, slotAt := [], [];
    }

    ghost function View(): State
      reads this
    {
      State(ir, freeset, cost, allow, live, sloadins, regAt, slotAt)
    }

    ghost predicate CodeTraced()
      reads this
    {
      Traced(inp, code, regAt, slotAt)
    }

    /** The same, before or after the adjustment of the stack pointer. */
    ghost predicate CodeGrown(delta: int)
      reads this
    {
      CodeTraced() && Growth(code) == delta
    }

    /** What the rest of the assembler hands over: allocated registers and the cost table
        agree, and every register in play is either free or held by an inherited value. */
    ghost predicate Entry()
      reads this
    {
      && inp.Static() && |inp.entry| > 0 && ir == inp.entry && code == [] && live == {}
      && (forall i :: inp.Ref(i) ==> !inp.entry[i].marked)
      && (forall i :: inp.Ref(i) && inp.entry[i].r.HasReg? ==>
            var r := inp.entry[i].r.reg; r !in freeset && r in cost && cost[r] == i)
      && (forall r :: r in cost && r !in freeset ==>
            inp.Ref(cost[r]) && inp.entry[cost[r]].r == HasReg(r))
      && (forall r :: r in allow ==> r in freeset || r in cost)
      && (forall i :: inp.Ref(i) && inp.parent[i].InReg? ==>
            inp.parent[i].reg in freeset || inp.parent[i].reg in cost)
      && inp.pinned <= freeset && inp.pinned !! allow
    }

    method Emit(ins: Instr)
      requires CodeTraced()
      requires ins.Mov? || ins.SpLoad? ==> ins.dst !in inp.pinned
      requires ins.SpStore? ==> Growth(code) == 0 && Slot(inp, ins.ofs)
      modifies this`code, this`regAt, this`slotAt
      ensures CodeTraced() && Growth(code) == old(Growth(code)) + if ins.SpSub? then ins.delta else 0
      ensures code == [ins] + old(code)
      ensures regAt == BackAll(ins, old(regAt)) && slotAt == BackAll(ins, old(slotAt))
    {
      TracedEmit(inp, code, regAt, slotAt, ins);
      code, regAt, slotAt := [ins] + code, BackAll(ins, regAt), BackAll(ins, slotAt);
    }

    /** First half of a scan step: claim the register of i, or mark i for a reload. */
    method ClaimRef(i: nat)
      requires CodeGrown(0) && Sized(inp, View()) && inp.Ref(i) && (ir[i].r.HasReg? ==> ir[i].r.reg !in inp.pinned)
      requires ir[i].s == inp.entry[i].s
      modifies this`allow, this`ir, this`code, this`regAt, this`slotAt
      ensures CodeGrown(0) && View() == Claim(inp, old(View()), i)
    {
      hide Traced;
      var ins := ir[i];
      if ins.r.HasReg? {
        allow := allow - {ins.r.reg};
        if ins.HasSpill() {
          Emit(SpStore(Scale(ins.s), ins.r.reg));
        }
      } else if ins.HasSpill() {
        ir := ir[i := ins.(marked := true)];
      }
    }

    /** Second half: coalesce matching registers, or block the parent register. */
    method DependRef(i: nat)
      requires Sized(inp, View()) && inp.Ref(i)
      modifies this`freeset, this`sloadins, this`live
      ensures View() == Depend(inp, old(View()), i)
    {
      match inp.parent[i] {
        case InReg(rp) =>
          if ir[i].r == HasReg(rp) {   // coalesce matching registers right now
            freeset := freeset + {rp};
          } else if ir[i].Used() {
            sloadins := sloadins[rp := i];
            live := live + {rp};       // block live parent register
          }
        case InSpill(_) =>
      }
    }

    /** Scan one parent SLOAD; the flags say which passes are needed. */
    method ScanRef(i: nat, pass2: bool, pass3: bool, ghost allow0: set<Reg>) returns (p2: bool, p3: bool)
      requires i > 0 && CodeGrown(0) && Scanning(inp, View(), i, pass2, pass3)
      requires ScanTrack(inp, View(), i, allow0, pass2) && (inp.Ref(i) ==> !inp.entry[i].marked)
      modifies this
      ensures ScanTrack(inp, View(), i - 1, allow0, p2)
      ensures CodeGrown(0) && Scanning(inp, View(), i - 1, p2, p3)
      ensures forall k :: Ample(inp, old(allow), k) ==> Ample(inp, allow, k)
    {
      hide Scanning, Traced, Claim, Depend, Ample, ScanTrack;
      ghost var st := View();
      ScanKeeps(inp, st, i, pass2, pass3);
      ClaimFacts(inp, st, i, pass2, pass3);
      var ins := ir[i];
      p2 := pass2 || (!ins.r.HasReg? && ins.HasSpill());
      p3 := pass3 || (ins.r.HasReg? && inp.parent[i].InSpill?);
      ClaimAmple(inp, st, i);
      ScanTrackStep(inp, st, i, allow0, pass2);
      ClaimRef(i);
      DependRef(i);
    }

    lemma EntryScans()
      requires Entry() && |regAt| == |slotAt| == |inp.entry|
      requires forall i :: 0 <= i < |inp.entry| ==> slotAt[i] == S(Scale(inp.entry[i].s))
      requires forall i :: 0 <= i < |inp.entry| && inp.entry[i].r.HasReg? ==> regAt[i] == R(inp.entry[i].r.reg)
      ensures |inp.entry| > 0 && CodeGrown(0) && Scanning(inp, View(), |inp.entry| - 1, false, false)
    {
      ScanStarts(inp, View());
    }

    lemma EntryTracks()
      requires Entry()
      ensures forall i :: inp.Ref(i) ==> !inp.entry[i].marked
      ensures ScanTrack(inp, View(), |inp.entry| - 1, allow, false)
    {
    }

    /** The loop over the inherited slots, last first: which registers hold which values, and
        what is left for the second and the third pass. */
    method Scan() returns (pass2: bool, pass3: bool)
      requires Entry()
      modifies this
      ensures CodeGrown(0) && |inp.entry| > 0
      ensures Reloading(inp, View(), if pass2 then |inp.entry| - 1 else 0, pass3)
      ensures ReloadTrack(inp, View(), if pass2 then |inp.entry| - 1 else 0, old(allow), map[])
      ensures Ample(inp, old(allow), |inp.entry| - 1) ==> Ample(inp, allow, |inp.entry| - 1)
    {
      hide Scanning, Traced, Ample, ScanTrack, ReloadTrack, Reloading;
      regAt := seq(|inp.entry|, i requires 0 <= i < |inp.entry| =>
                     if inp.entry[i].r.HasReg? then R(inp.entry[i].r.reg) else S(0));
      slotAt := seq(|inp.entry|, i requires 0 <= i < |inp.entry| => S(Scale(inp.entry[i].s)));
      pass2, pass3 := false, false;
      EntryScans();
      EntryTracks();
      var i := |inp.entry| - 1;
      while i > 0
        invariant 0 <= i < |inp.entry|
        invariant CodeGrown(0)
        invariant Scanning(inp, View(), i, pass2, pass3) && ScanTrack(inp, View(), i, old(allow), pass2)
        invariant Ample(inp, old(allow), |inp.entry| - 1) ==> Ample(inp, allow, |inp.entry| - 1)
      {
        pass2, pass3 := ScanRef(i, pass2, pass3, old(allow));
        i := i - 1;
      }
      TrackStarts(inp, View(), if pass2 then |inp.entry| - 1 else 0, old(allow), pass2);
      ScanEnds(inp, View(), pass2, pass3);
    }

    /** Reload the spilled target i into register r. */
    method ReloadRef(i: nat, r: Reg)
      requires CodeGrown(0) && Sized(inp, View()) && inp.Ref(i)
      requires inp.entry[i].HasSpill() && ir[i].s == inp.entry[i].s
      modifies this
      ensures CodeGrown(0) && View() == Reload(inp, old(View()), i, r)
    {
      hide Traced;
      var ins, rs := ir[i], inp.parent[i];
      ir := ir[i := ins.(marked := false, r := HasReg(r))];
      freeset := freeset - {r};
      cost := cost[r := i];
      Emit(SpStore(Scale(ins.s), r));
      allow := allow - {r};
      if rs == InReg(r) {   // coalesce matching registers right now
        freeset := freeset + {r};
        live := live - {r};
      }
    }

    /** Reload spilled target registers. A register is picked from the free ones of the
        right class that no coalesced value depends on; the parent's register first. */
    method ReloadSpilled(pass3: bool, ghost allow0: set<Reg>)
        returns (res: Outcome, p3: bool, ghost given: map<nat, Reg>)
      requires CodeGrown(0) && |inp.entry| > 0 && ReloadTrack(inp, View(), |inp.entry| - 1, allow0, map[])
      requires Reloading(inp, View(), |inp.entry| - 1, pass3)
      modifies this
      ensures CodeGrown(0)
      ensures res.Ok? ==> Reloading(inp, View(), 0, p3) && ReloadTrack(inp, View(), 0, allow0, given)
      ensures res.TooComplex? <==> exists fpr :: Short(inp, allow0, fpr)
      ensures res.Ok? && Ample(inp, old(allow), |inp.entry| - 1) ==> Ample(inp, allow, 0)
      ensures res.TooComplex? ==> (exists fpr :: Starved(allow, live, fpr)) && !Ample(inp, old(allow), |inp.entry| - 1)
    {
      hide Reloading, Traced, Reload, Ample, Starved, ReloadTrack, Short, Needed;
      p3, given := pass3, map[];
      var i := |inp.entry| - 1;
      while i > 0
        invariant 0 <= i < |inp.entry|
        invariant CodeGrown(0)
        invariant Reloading(inp, View(), i, p3) && ReloadTrack(inp, View(), i, allow0, given)
        invariant Ample(inp, old(allow), |inp.entry| - 1) ==> Ample(inp, allow, i)
      {
        ghost var st := View();
        ReloadFacts(inp, st, i, p3);
        ReloadAmple(inp, st, i, p3);
        TrackMarked(inp, st, i, allow0, given);
        var ins, rs := ir[i], inp.parent[i];
        if !ins.marked || (rs.InSpill? && Scale(rs.slot) + inp.spdelta == Scale(ins.s)) {
          SkipKeeps(inp, st, i, p3);
          TrackSkip(inp, st, i, allow0, given);
          ir := ir[i := ins.(marked := false)];
        } else {
          var mask := set r | r in allow && IsFpr(r) == ins.fp;
          if mask == {} {
            NoMask(allow, live, mask, ins.fp);
            TrackShort(inp, st, i, allow0, given);
            return TooComplex, p3, given;
          }
          var r: Reg;
          if rs.InReg? && rs.reg in mask { r := rs.reg; } else { r :| r in mask; }
          ReloadKeeps(inp, st, i, p3, r);
          ReloadTakes(inp, st, i, r);
          TrackGives(inp, st, i, allow0, given, r);
          ReloadRef(i, r);
          given := given[i := r];
          p3 := p3 || rs.InSpill?;
        }
        i := i - 1;
      }
      TrackEnough(inp, View(), allow0, given);
      res := Ok;
    }

    /** Values that the parent keeps in a slot are loaded into the registers meant for them. */
    method RestoreSpilled()
      requires CodeGrown(inp.spdelta)
      requires Restoring(inp, View(), cost.Keys - freeset)
      modifies this
      ensures CodeGrown(inp.spdelta) && Shuffling(inp, View())
      ensures allow == old(allow) && live == old(live) && ir == old(ir) && old(freeset) <= freeset
    {
      hide Restoring, Shuffling, Traced;
      var work := cost.Keys - freeset;
      while work != {}
        invariant CodeGrown(inp.spdelta)
        invariant Restoring(inp, View(), work) && old(freeset) <= freeset
        invariant allow == old(allow) && live == old(live) && ir == old(ir)
        invariant forall r :: r in work ==> r !in freeset && r in cost
      {
        var r := PickBot(work);
        RestoreKeeps(inp, View(), r, work);
        var ref := cost[r];
        work := work - {r};
        match inp.parent[ref] {
          case InSpill(slot) =>
            freeset := freeset + {r};
            Emit(SpLoad(r, Scale(slot)));
          case InReg(_) =>
        }
      }
      RestoreEnds(inp, View());
    }

    /** Moves values into registers that have become free, until no register is free and live. */
    method CoalesceFree()
      requires CodeGrown(inp.spdelta) && Shuffling(inp, View()) && Known(View())
      modifies this
      ensures CodeGrown(inp.spdelta) && Shuffling(inp, View()) && Known(View())
      ensures Ample(inp, old(allow), 0) ==> Ample(inp, allow, 0)
      ensures forall r :: r in live ==> r !in freeset
      ensures live <= old(live) && |live| <= |old(live)|
      ensures forall fpr :: Starved(allow, live, fpr) <==> Starved(old(allow), old(live), fpr)
      ensures forall c, fpr :: Closed(inp, View(), c, fpr) <==> Closed(inp, old(View()), c, fpr)
      ensures !old(freeset !! live) ==> |live| < |old(live)|
    {
      hide Shuffling, Traced, Ample, Starved, Closed, Known;
      while freeset * live != {}
        invariant CodeGrown(inp.spdelta) && Shuffling(inp, View()) && Known(View())
        invariant Ample(inp, old(allow), 0) ==> Ample(inp, allow, 0)
        invariant live <= old(live)
        invariant (live == old(live) && freeset == old(freeset)) || |live| < |old(live)|
        invariant forall fpr :: Starved(allow, live, fpr) <==> Starved(old(allow), old(live), fpr)
        invariant forall c, fpr :: Closed(inp, View(), c, fpr) <==> Closed(inp, old(View()), c, fpr)
        decreases |live|
      {
        var rp := PickBot(freeset * live);
        CoalesceKeeps(inp, View(), rp);
        CoalesceAmple(inp, View(), rp);
        CoalesceClosed(inp, View(), rp);
        CoalesceKnown(View(), rp);
        StarvedSame(allow, live, rp);
        var i := sloadins[rp];
        var r := ir[i].r.reg;
        live := live - {rp};
        allow := allow - {rp};
        freeset := freeset + {r};
        Emit(Mov(r, rp));
      }
      assert forall r :: r in live && r in freeset ==> r in freeset * live;
    }

    /** Rename register allocation and emit the inverse move. */
    method Rename(down: Reg, up: Reg)
      requires CodeGrown(inp.spdelta) && Shuffling(inp, View())
      requires down in live && down !in freeset
      requires up in freeset && up !in live && up in allow && IsFpr(down) == IsFpr(up)
      modifies this`ir, this`cost, this`freeset, this`code, this`regAt, this`slotAt
      ensures CodeGrown(inp.spdelta) && Shuffling(inp, View()) && (old(Known(View())) ==> Known(View()))
      ensures freeset == old(freeset) + {down} - {up}
    {
      hide Shuffling, Traced;
      RenameKeeps(inp, View(), down, up);
      var ref := cost[down];
      ir := ir[ref := ir[ref].(r := HasReg(up))];
      cost := cost[up := ref][down := 0];
      freeset := freeset + {down} - {up};
      Emit(Mov(down, up));
    }

    /** Break the cycles of one register class by renaming one target to a temporary. */
    method BreakCycle(fpr: bool) returns (res: Outcome)
      requires CodeGrown(inp.spdelta) && Shuffling(inp, View()) && Known(View())
      requires forall r :: r in live && IsFpr(r) == fpr ==> r !in freeset
      requires forall r :: r in allow && IsFpr(r) == fpr && r !in live ==> r in freeset
      modifies this`ir, this`cost, this`freeset, this`code, this`regAt, this`slotAt
      ensures CodeGrown(inp.spdelta) && Shuffling(inp, View()) && Known(View())
      ensures forall r :: IsFpr(r) != fpr ==> (r in freeset <==> r in old(freeset))
      ensures res.Ok? && (exists r :: r in live && IsFpr(r) == fpr) ==>
                exists r :: r in live && IsFpr(r) == fpr && r in freeset
      ensures res.TooComplex? <==> !NoneLive(live, fpr) && Starved(allow, live, fpr)
    {
      hide Shuffling, Traced, Known;
      var stuck := set r | r in live && IsFpr(r) == fpr;
      if stuck != {} {
        var tmpset := set r | r in freeset && r !in live && r in allow && IsFpr(r) == fpr;
        var down := PickBot(stuck);
        if tmpset == {} {
          assert forall r :: r in freeset && r !in live && r in allow && IsFpr(r) == fpr ==> r in tmpset;
          return TooComplex;
        }
        var up := PickBot(tmpset);
        Rename(down, up);
        assert down in live && down in freeset;
      }
      assert stuck == {} ==> forall r :: r in live && IsFpr(r) == fpr ==> r in stuck;
      return Ok;
    }

    /** Shuffle registers to match up target registers with parent registers. It gives up if and
        only if, in some class, values wait for each other in a cycle at the start and every
        temporary is live at the start. */
    method Shuffle() returns (res: Outcome)
      requires CodeGrown(inp.spdelta) && Shuffling(inp, View()) && Known(View())
      modifies this
      ensures CodeGrown(inp.spdelta) && Shuffling(inp, View())
      ensures res.Ok? <==> live == {}
      ensures forall fpr :: Starved(allow, live, fpr) <==> Starved(old(allow), old(live), fpr)
      ensures res.TooComplex? <==>
              exists fpr :: Starved(old(allow), old(live), fpr) && Cyclic(inp, old(View()), fpr)
      ensures Ample(inp, old(allow), 0) ==> res.Ok?
    {
      hide Shuffling, Traced, Ample, Known, Starved, Closed, Cyclic, NoneLive, HeldRegs;
      ghost var first := true;
      while true
        invariant CodeGrown(inp.spdelta) && Shuffling(inp, View()) && Known(View())
        invariant Ample(inp, old(allow), 0) ==> Ample(inp, allow, 0)
        invariant forall fpr :: Starved(allow, live, fpr) <==> Starved(old(allow), old(live), fpr)
        invariant first ==> forall c, fpr :: Closed(inp, View(), c, fpr) <==> Closed(inp, old(View()), c, fpr)
        invariant !first ==> PassedBy(inp, old(View()), live)
        decreases |live|, if freeset !! live then 1 else 0
      {
        ghost var live1 := live;
        CoalesceFree();
        if first {
          SameCycles(inp, old(View()), View());
        } else {
          PassedOn(inp, old(View()), live1, live);
        }
        if live == {} {
          EmptyNone();
          return Ok;
        }
        OnlyCycles(inp, View());
        ShuffleAmple(inp, View());
        res := BreakCycle(false);
        if res.TooComplex? { return; }
        res := BreakCycle(true);
        if res.TooComplex? { return; }
        forall fpr | Starved(old(allow), old(live), fpr) ensures NoneLive(live, fpr) && !Cyclic(inp, old(View()), fpr) {
          assert fpr == true || fpr == false;
        }
        first := false;
        // renaming has freed a live register, so that coalescing goes on
        ghost var r :| r in live;
        assert !(freeset !! live);
      }
    }

    /** The head of a side trace. When it does not give up, running the emitted code from the
        parent's exit state puts every inherited value into the register and into the spill slot
        the trace body was assembled for, and keeps the pinned registers. It gives up exactly
        when there are not enough temporaries for the values that have to be stored or, with the
        registers given to those, when some class has a cycle and no register to spare. */
    method AsmHeadSide() returns (res: Outcome, ghost given: map<nat, Reg>)
      requires Entry()
      modifies this
      ensures res.Ok? ==> Delivers(inp, code)
      ensures (forall fpr :: !Short(inp, old(allow), fpr)) ==> Choice(inp, old(allow), given, 0)
      ensures res.TooComplex? <==>
              || (exists fpr :: Short(inp, old(allow), fpr))
              || (exists fpr :: NoSpare(inp, old(allow), given, fpr) && HasCycle(inp, given, fpr))
      ensures res.TooComplex? ==> exists fpr :: Starved(allow, live, fpr)
      ensures Ample(inp, old(allow), |inp.entry| - 1) ==> res.Ok?
    {
      hide Entry, Shuffling, Restoring, Reloading, Traced, Ample, Starved, Delivers, Known, ReloadTrack, Short, Choice,
        NoSpare, HasCycle, Cyclic;
      var pass2, pass3 := Scan();
      given := map[];
      if pass2 {
        res, pass3, given := ReloadSpilled(pass3, old(allow));
        if res.TooComplex? { return; }
      } else {
        AmpleDown(inp, allow, |inp.entry| - 1);
        TrackEnough(inp, View(), old(allow), given);
      }
      TrackChoice(inp, View(), old(allow), given);
      ghost var st := View();
      ReloadEnds(inp, st, pass3, if pass3 then cost.Keys - freeset else {});
      ReloadFree(inp, st, pass3);
      Emit(SpSub(inp.spdelta));
      if pass3 {
        RestoreSpilled();
      } else {
        RestoreEnds(inp, View());
      }
      KnownFree(View());
      TrackSame(inp, st, View(), old(allow), given);
      forall fpr ensures Starved(allow, live, fpr) <==> NoSpare(inp, old(allow), given, fpr) {
        StarvedInput(inp, View(), old(allow), given, fpr);
      }
      forall fpr ensures Cyclic(inp, View(), fpr) <==> HasCycle(inp, given, fpr) {
        CyclicInput(inp, View(), old(allow), given, fpr);
      }
      res := Shuffle();
      if res.Ok? {
        HeadEnds(inp, View(), code);
      }
    }
  }

  lemma TrackChoice(inp: Input, st: State, allow: set<Reg>, given: map<nat, Reg>)
    requires ReloadTrack(inp, st, 0, allow, given)
    ensures Choice(inp, allow, given, 0)
  {
  }

  lemma TrackSame(inp: Input, st: State, st': State, allow: set<Reg>, given: map<nat, Reg>)
    requires ReloadTrack(inp, st, 0, allow, given) && st'.ir == st.ir && st'.allow == st.allow && st'.live == st.live
    ensures ReloadTrack(inp, st', 0, allow, given)
  {
  }

  lemma SameCycles(inp: Input, st: State, st': State)
    requires Shuffling(inp, st') && forall r :: r in st'.live ==> r !in st'.freeset
    requires forall c, fpr :: Closed(inp, st', c, fpr) <==> Closed(inp, st, c, fpr)
    ensures forall fpr :: NoneLive(st'.live, fpr) <==> !Cyclic(inp, st, fpr)
  {
    hide Shuffling, Closed, NoneLive;
    forall fpr ensures NoneLive(st'.live, fpr) <==> !Cyclic(inp, st, fpr) {
      LiveCyclic(inp, st', fpr);
    }
  }

  lemma PassedOn(inp: Input, st: State, live: set<Reg>, live': set<Reg>)
    requires PassedBy(inp, st, live) && live' <= live
    ensures PassedBy(inp, st, live')
  {
  }

  lemma EmptyNone()
    ensures forall fpr :: NoneLive({}, fpr)
  {
  }

  /** A class that had cycles at the start and no temporary to spare has no live register. */
  ghost predicate PassedBy(inp: Input, st: State, live: set<Reg>) {
    forall fpr :: Starved(st.allow, st.live, fpr) ==> NoneLive(live, fpr) && !Cyclic(inp, st, fpr)
  }

  lemma CoalesceKnown(st: State, rp: Reg)
    requires Known(st) && rp in st.sloadins && st.sloadins[rp] < |st.ir| && st.ir[st.sloadins[rp]].r.HasReg?
    ensures Known(CoalesceStep(st, rp, st.ir[st.sloadins[rp]].r.reg))
  {
  }

  lemma CoalesceAmple(inp: Input, st: State, rp: Reg)
    requires Shuffling(inp, st) && rp in st.live
    ensures Ample(inp, st.allow, 0) ==> Ample(inp, st.allow - {rp}, 0)
  {
    hide Ample, Mentioned;
    LiveMentioned(inp, st, rp);
    AmpleMentioned(inp, st.allow, rp, 0);
  }

  lemma ShuffleAmple(inp: Input, st: State)
    requires Shuffling(inp, st)
    ensures Ample(inp, st.allow, 0) ==> forall fpr :: !Starved(st.allow, st.live, fpr)
  {
    hide Ample, Starved;
    if Ample(inp, st.allow, 0) {
      forall fpr ensures !Starved(st.allow, st.live, fpr) {
        AmpleNotStarved(inp, st, 0, fpr);
      }
    }
  }

  lemma {:induction false} AmpleDown(inp: Input, allow: set<Reg>, k: nat)
    ensures Ample(inp, allow, k) ==> Ample(inp, allow, 0)
  {
    if k > 0 && Ample(inp, allow, k) {
      AmpleSkip(inp, allow, k);
      AmpleDown(inp, allow, k - 1);
    }
  }

  lemma ReloadFree(inp: Input, st: State, pass3: bool)
    requires Reloading(inp, st, 0, pass3)
    ensures st.allow <= st.freeset
  {
  }

  lemma KnownFree(st: State)
    ensures st.allow <= st.freeset ==> Known(st)
  {
  }

  lemma HeadEnds(inp: Input, st: State, code: seq<Instr>)
    requires Shuffling(inp, st) && st.live == {} && Traced(inp, code, st.regAt, st.slotAt)
    requires Growth(code) == inp.spdelta
    ensures Delivers(inp, code)
  {
    hide Shuffling, Source;
    forall i | inp.UsedRef(i)
      ensures Sized(inp, st) && Merged(inp, st, i) && Cur(inp, st, i) == ParentLoc(inp.parent[i])
    {
      ShuffleEnds(inp, st, i);
    }
  }
}

/** The layout of a DynASM program: the items of all sections in output order, the cuts
    that the link pass makes into the worst-case sizes of the put pass, and the bytes that
    the encode pass writes. */
module DasmLayout {

  type Byte = b: int | 0 <= b < 256

  datatype ImmKind = ImmS | ImmB | ImmW | ImmD | ImmWB | ImmDB

  /** Entries of the action list, with the bytes that follow an action code folded in. */
  datatype Action =
    | Lit(b: Byte)              // a plain byte below DASM_DISP
    | Esc(b: Byte)              // DASM_ESC and the escaped byte
    | Imm(kind: ImmKind)
    | Space(fill: Byte)
    | RelLG(n: Byte)
    | RelPC
    | LabelLG(n: Byte)
    | LabelPC
    | Align(mask: Byte)         // 2**n - 1
    | Section(n: Byte)
    | Stop
  {
    predicate Literal() { Lit? || Esc? }
    predicate Rel() { RelLG? || RelPC? }
    predicate Label() { LabelLG? || LabelPC? }
    predicate Ends() { Section? || Stop? }
  }

  predicate Int8(n: int) { -128 <= n <= 127 }

  predicate ShortImm(kind: ImmKind, n: int) {
    match kind
    case ImmS => true
    case ImmB => true
    case ImmWB => Int8(n)
    case ImmDB => Int8(n)
    case _ => false
  }

  function ImmSize(kind: ImmKind, n: int): nat {
    if ShortImm(kind, n) then 1
    else if kind.ImmW? || kind.ImmWB? then 2
    else 4
  }

  /** One item of the program: the start of a put, or one of its actions with its argument.
      `op` is the byte in front of a branch displacement, `at` the worst-case offset after
      the item over all sections, `pos` its buffer position and `link` what its slot for a
      label holds: the position of the label, or a negative marker for an external global. */
  datatype Item = Item(start: bool, act: Action, op: Byte, n: int, at: int, pos: int, link: int)
  {
    predicate Rel() { !start && act.Rel() }
    predicate Label() { !start && act.Label() }
    predicate Literal() { !start && act.Literal() }
    predicate Short() { !start && act.Imm? && (act.kind.ImmWB? || act.kind.ImmDB?) && Int8(n) }

    /** Bytes that the put pass reserves. */
    function Max(): int {
      if start then 0 else
      match act
      case Lit(_) => 1
      case Esc(_) => 1
      case Imm(kind) => ImmSize(kind, n)
      case Space(_) => n
      case RelLG(_) => 4
      case RelPC => 4
      case Align(mask) => mask
      case _ => 0
    }

    /** How many bytes the short form of a branch saves. */
    function Shrink(): nat {
      if op == 0xe9 then 3 else if op / 16 == 8 then 4 else 0
    }
  }

  /** The layout of a whole program before the link pass. */
  ghost predicate WellFormed(f: seq<Item>) {
    && (forall k :: 0 <= k < |f| ==> f[k].at == (if k == 0 then 0 else f[k-1].at) + f[k].Max())
    && (forall k :: 0 <= k < |f| ==> f[k].Max() >= 0)
    && (forall j, k :: 0 <= j < k < |f| && (f[j].Label() || f[j].Rel()) ==> f[j].pos < f[k].pos)
    && (forall k :: 0 <= k < |f| ==> Placed(f, k))
  }

  /** What the preprocessor guarantees about the bytes in front of an item. */
  predicate Placed(f: seq<Item>, k: int)
    requires 0 <= k < |f|
  {
    && (f[k].Rel() ==> k >= 1 && f[k-1].Literal() && f[k-1].act.b == f[k].op)
    && (f[k].Rel() && f[k].Shrink() == 4 ==> k >= 2 && f[k-2].Literal() && f[k-2].act.b == 0x0f)
    && (f[k].Short() ==> k >= 2 && f[k-1].Literal() && f[k-2].Literal())
  }

  lemma WellFormedIntro(f: seq<Item>)
    requires forall k :: 0 <= k < |f| ==>
               f[k].at == (if k == 0 then 0 else f[k - 1].at) + f[k].Max() && f[k].Max() >= 0
    requires forall k :: 0 <= k < |f| ==> Placed(f, k)
    requires forall j, k :: 0 <= j < k < |f| && (f[j].Label() || f[j].Rel()) ==> f[j].pos < f[k].pos
    ensures WellFormed(f)
  {
  }

  /** t is the item that branch k jumps to. */
  predicate Jumps(f: seq<Item>, k: int, t: int) {
    0 <= k < |f| && 0 <= t < |f| && f[k].Rel() && f[t].Label() && f[t].pos == f[k].link
  }

  /** Every branch goes to a label of the program or to an external global. */
  ghost predicate Resolved(f: seq<Item>) {
    forall k :: 0 <= k < |f| && f[k].Rel() ==> f[k].link < 0 || exists t :: Jumps(f, k, t)
  }

  function At(f: seq<Item>, k: int): int
    requires 0 <= k <= |f|
  {
    if k == 0 then 0 else f[k-1].at
  }

  /** The label that branch k jumps to, or -1. */
  ghost function Target(f: seq<Item>, k: int): (t: int)
    ensures t >= 0 ==> Jumps(f, k, t)
    ensures t < 0 ==> t == -1 && forall u :: !Jumps(f, k, u)
  {
    if exists t :: Jumps(f, k, t) then var t :| Jumps(f, k, t); t else -1
  }

  // ---------------------------------------------------------------- cuts of the link pass

  /** Bytes cut away in front of item k. */
  ghost function Cut(f: seq<Item>, k: nat): int
    requires k <= |f|
    decreases k, 0
  {
    if k == 0 then 0 else Cut(f, k - 1) + ItemCut(f, k - 1)
  }

  /** The distance that the link pass computes for branch k: from worst-case offsets to a
      label ahead, from final offsets to a label behind. */
  ghost function Distance(f: seq<Item>, k: nat, t: nat): int
    requires k < |f| && t < |f|
    decreases k, 1
  {
    if t > k then f[t].at - f[k].at
    else if t < k then (f[t].at - Cut(f, t)) - (f[k].at - Cut(f, k))
    else 0
  }

  ghost function ItemCut(f: seq<Item>, k: nat): int
    requires k < |f|
    decreases k, 2
  {
    if f[k].start then 0
    else if f[k].Rel() then
      var t := Target(f, k);
      if f[k].Shrink() != 0 && t >= 0 && -128 - f[k].Shrink() <= Distance(f, k, t) <= 127
      then f[k].Shrink() else 0
    else if f[k].act.Align? then (f[k].at - Cut(f, k)) % (f[k].act.mask + 1)
    else 0
  }

  /** Final offset in front of item k. */
  ghost function Fin(f: seq<Item>, k: nat): int
    requires k <= |f|
  {
    At(f, k) - Cut(f, k)
  }

  /** No item grows, and none is cut to less than nothing. */
  lemma ItemFits(f: seq<Item>, k: nat)
    requires WellFormed(f) && k < |f|
    ensures 0 <= ItemCut(f, k)
    ensures ItemCut(f, k) <= f[k].Max()
    ensures Fin(f, k + 1) == Fin(f, k) + f[k].Max() - ItemCut(f, k)
  {
  }

  lemma {:induction false} FinMonotone(f: seq<Item>, j: nat, k: nat)
    requires WellFormed(f) && j <= k <= |f|
    ensures Fin(f, j) <= Fin(f, k)
    ensures Fin(f, k) - Fin(f, j) <= At(f, k) - At(f, j)
    decreases k
  {
    if j < k {
      FinMonotone(f, j, k - 1);
      ItemFits(f, k - 1);
    }
  }

  /** A branch jumps to one label only. */
  lemma TargetUnique(f: seq<Item>, k: nat, t: nat)
    requires WellFormed(f) && Jumps(f, k, t)
    ensures Target(f, k) == t
  {
    var u := Target(f, k);
    assert Jumps(f, k, u);
  }

  /** A branch made short reaches its label: forward distances were judged from upper
      bounds, backward ones from offsets that were final already. */
  lemma ShortReaches(f: seq<Item>, k: nat, t: nat)
    requires WellFormed(f) && k < |f| && Jumps(f, k, t)
    requires ItemCut(f, k) != 0
    ensures Int8(Fin(f, t) - Fin(f, k + 1))
    ensures ItemCut(f, k) == f[k].Shrink()
  {
    TargetUnique(f, k, t);
    if t > k {
      FinMonotone(f, k + 1, t);
      FinMonotone(f, 0, k);
    } else {
      FinMonotone(f, t, k + 1);
    }
  }

  /** A branch that has a short form is long only where that form may not reach: backward, when it
      would not; forward, when the label is too far at worst. */
  ghost predicate Tight(f: seq<Item>, k: int, t: int) {
    0 <= k < |f| && 0 <= t < |f| &&
    (f[k].Shrink() != 0 && Fin(f, k + 1) == Fin(f, k) + 4 ==>
      if t < k then Fin(f, t) - (Fin(f, k + 1) - f[k].Shrink()) < -128 else At(f, t) - At(f, k + 1) > 127)
  }

  lemma LongIsNeeded(f: seq<Item>, k: nat, t: nat)
    requires WellFormed(f) && k < |f| && Jumps(f, k, t)
    ensures Tight(f, k, t)
  {
    TargetUnique(f, k, t);
    ItemFits(f, k);
    ItemFits(f, t);
    if t < k {
      FinMonotone(f, t, k);
    } else if t > k {
      FinMonotone(f, k + 1, t);
    }
  }

  lemma ModUnique(x: int, m: int, q: int, r: int)
    requires m > 0 && 0 <= r < m && x == m * q + r
    ensures x % m == r
  {
    var d := x / m;
    assert m * (q - d) == x % m - r;
    assert q - d >= 1 ==> m * (q - d) >= m;
    assert q - d <= -1 ==> m * (q - d) <= -m;
  }

  /** Alignment items end at a multiple of their alignment. */
  lemma Aligned(f: seq<Item>, k: nat)
    requires WellFormed(f) && k < |f| && !f[k].start && f[k].act.Align?
    ensures Fin(f, k + 1) % (f[k].act.mask + 1) == 0
    ensures 0 <= Fin(f, k + 1) - Fin(f, k) <= f[k].act.mask
  {
    ItemFits(f, k);
    var x, m := f[k].at - Cut(f, k), f[k].act.mask as int + 1;
    ModUnique(x - x % m, m, x / m, 0);
  }

  // ---------------------------------------------------------------- bytes of the encode pass

  /** The low `w` bytes of n, least significant first. */
  function LittleEndian(n: int, w: nat): (r: seq<Byte>)
    ensures |r| == w
    decreases w
  {
    if w == 0 then [] else [n % 256] + LittleEndian(n / 256, w - 1)
  }

  /** How a processor reads a 1 byte or 4 byte displacement. */
  function Signed8(b: seq<Byte>): int
    requires |b| == 1
  {
    if b[0] < 0x80 then b[0] as int else b[0] as int - 0x100
  }

  function Signed32(b: seq<Byte>): int
    requires |b| == 4
  {
    var u := b[0] as int + 0x100 * (b[1] as int) + 0x10000 * (b[2] as int) + 0x1000000 * (b[3] as int);
    if u < 0x80000000 then u else u - 0x100000000
  }

  lemma Signed8Inverse(n: int)
    requires Int8(n)
    ensures Signed8(LittleEndian(n, 1)) == n
  {
  }

  lemma Signed32Inverse(n: int)
    requires -0x80000000 <= n < 0x80000000
    ensures Signed32(LittleEndian(n, 4)) == n
  {
    var n1 := n / 256;
    var n2 := n1 / 256;
    var n3 := n2 / 256;
    assert LittleEndian(n, 4) == [n % 256] + LittleEndian(n1, 3);
    assert LittleEndian(n1, 3) == [n1 % 256] + LittleEndian(n2, 2);
    assert LittleEndian(n2, 2) == [n2 % 256] + LittleEndian(n3, 1);
    assert LittleEndian(n3, 1) == [n3 % 256];
  }

  /** Where the code is loaded, and the addresses of the global labels. */
  datatype Env = Env(base: int, globals: map<int, int>)

  function ExtDisp(env: Env, marker: int, ofs: int): int {
    (if -marker in env.globals then env.globals[-marker] else 0) - (env.base + ofs + 4)
  }

  /** Number of nops that bring `len` to a multiple of m. */
  function Padding(len: int, m: int): nat
    requires m > 0
  {
    if len % m == 0 then 0 else m - len % m
  }

  /** Bytes of a branch whose displacement is n: the long form, or one of the short forms,
      which replace the opcode in front of it. */
  function Branch(out: seq<Byte>, cut: int, n: int): (r: seq<Byte>) {
    if cut == 4 && |out| >= 2 then out[..|out| - 2] + [(out[|out| - 1] as int - 0x10) % 256] + LittleEndian(n, 1)
    else if cut == 3 && |out| >= 1 then out[..|out| - 1] + [0xeb] + LittleEndian(n, 1)
    else out + LittleEndian(n, 4)
  }

  function Immediate(out: seq<Byte>, kind: ImmKind, n: int): seq<Byte> {
    if Int8(n) && (kind.ImmWB? || kind.ImmDB?) && |out| >= 2 then
      out[|out| - 2 := (out[|out| - 2] as int + 2) % 256] + LittleEndian(n, 1)
    else out + LittleEndian(n, ImmSize(kind, n))
  }

  /** The output after item k, given the output in front of it. */
  ghost function Emit(f: seq<Item>, env: Env, k: nat, out: seq<Byte>): seq<Byte>
    requires k < |f|
  {
    if f[k].start then out else
    match f[k].act
    case Lit(b) => out + [b]
    case Esc(b) => out + [b]
    case Imm(kind) => Immediate(out, kind, f[k].n)
    case Space(fill) => out + seq(if f[k].n < 0 then 0 else f[k].n, _ => fill)
    case Align(mask) => out + seq(Padding(|out|, mask + 1), _ => 0x90)
    case RelLG(_) => EmitRel(f, env, k, out)
    case RelPC => EmitRel(f, env, k, out)
    case _ => out
  }

  ghost function EmitRel(f: seq<Item>, env: Env, k: nat, out: seq<Byte>): seq<Byte>
    requires k < |f|
  {
    var t := Target(f, k);
    if t < 0 then out + LittleEndian(ExtDisp(env, f[k].link, |out|), 4)
    else Branch(out, ItemCut(f, k), Fin(f, t) - (|out| + 4 - ItemCut(f, k)))
  }

  ghost function Out(f: seq<Item>, env: Env, k: nat): seq<Byte>
    requires k <= |f|
  {
    if k == 0 then [] else Emit(f, env, k - 1, Out(f, env, k - 1))
  }

  lemma PaddingUnique(x: int, d: int, m: int)
    requires m > 0 && 0 <= d < m && (x + d) % m == 0
    ensures Padding(x, m) == d
  {
    var q := (x + d) / m;
    if d == 0 {
      ModUnique(x, m, q, 0);
    } else {
      ModUnique(x, m, q - 1, m - d);
    }
  }

  /** The literals in front of item k are the last bytes of the output. */
  lemma LiteralTail(f: seq<Item>, env: Env, k: nat)
    requires 0 < k <= |f| && f[k - 1].Literal()
    ensures Out(f, env, k) == Out(f, env, k - 1) + [f[k - 1].act.b]
  {
  }

  /** There is room in front of item k for the opcode bytes it changes. */
  lemma LiteralRoom(f: seq<Item>, k: nat)
    requires WellFormed(f) && k < |f|
    ensures Fin(f, k) >= 0
    ensures f[k].Rel() ==> k >= 1 && Fin(f, k) >= 1 && Fin(f, k - 1) == Fin(f, k) - 1
    ensures (f[k].Rel() && f[k].Shrink() == 4) || f[k].Short() ==>
              k >= 2 && Fin(f, k) >= 2 && Fin(f, k - 2) == Fin(f, k) - 2
  {
    hide WellFormed, Fin;
    PlacedAt(f, k);
    if f[k].Rel() || f[k].Short() {
      LiteralFits(f, k - 1);
      if (f[k].Rel() && f[k].Shrink() == 4) || f[k].Short() {
        LiteralFits(f, k - 2);
      }
    }
  }

  lemma PlacedAt(f: seq<Item>, k: nat)
    requires WellFormed(f) && k < |f|
    ensures Placed(f, k) && Fin(f, k) >= 0
  {
    FinMonotone(f, 0, k);
  }

  lemma LiteralFits(f: seq<Item>, k: nat)
    requires WellFormed(f) && k < |f| && f[k].Literal()
    ensures Fin(f, k + 1) == Fin(f, k) + 1 && Fin(f, k) >= 0
  {
    hide WellFormed;
    FinMonotone(f, 0, k);
    ItemFits(f, k);
  }

  lemma BranchShape(out: seq<Byte>, cut: int, n: int, keep: nat)
    requires cut == 0 || (cut == 3 && |out| >= 1) || (cut == 4 && |out| >= 2)
    requires keep <= |out| - (if cut == 4 then 2 else if cut == 3 then 1 else 0)
    ensures |Branch(out, cut, n)| == |out| + 4 - cut
    ensures Branch(out, cut, n)[..keep] == out[..keep]
  {
  }

  lemma ImmediateShape(out: seq<Byte>, kind: ImmKind, n: int, keep: nat)
    requires Int8(n) && (kind.ImmWB? || kind.ImmDB?) ==> |out| >= 2 && keep <= |out| - 2
    requires keep <= |out|
    ensures |Immediate(out, kind, n)| == |out| + ImmSize(kind, n)
    ensures Immediate(out, kind, n)[..keep] == out[..keep]
  {
  }

  /** Item k adds to the output just what the cuts leave of its worst-case size, and keeps
      the bytes in front of the literals it follows. */
  lemma EmitShape(f: seq<Item>, env: Env, k: nat, out: seq<Byte>, keep: nat)
    requires WellFormed(f) && Resolved(f) && k < |f|
    requires |out| == Fin(f, k) && keep <= |out|
    requires f[k].Rel() ==> keep <= |out| - 1
    requires (f[k].Rel() && f[k].Shrink() == 4) || f[k].Short() ==> keep <= |out| - 2
    ensures |Emit(f, env, k, out)| == Fin(f, k + 1)
    ensures Emit(f, env, k, out)[..keep] == out[..keep]
  {
    hide WellFormed, Fin, Cut, LittleEndian, Branch, Immediate, Padding;
    ItemFits(f, k);
    LiteralRoom(f, k);
    if f[k].Rel() {
      var t, cut := Target(f, k), ItemCut(f, k);
      if t >= 0 {
        BranchShape(out, cut, Fin(f, t) - (|out| + 4 - cut), keep);
      }
    } else if !f[k].start && f[k].act.Imm? {
      ImmediateShape(out, f[k].act.kind, f[k].n, keep);
    } else if !f[k].start && f[k].act.Align? {
      Aligned(f, k);
      PaddingUnique(|out|, Fin(f, k + 1) - Fin(f, k), f[k].act.mask as int + 1);
    }
  }

  /** The encode pass writes exactly as many bytes as the link pass announced. */
  lemma {:induction false} OutLength(f: seq<Item>, env: Env, k: nat)
    requires WellFormed(f) && Resolved(f) && k <= |f|
    ensures |Out(f, env, k)| == Fin(f, k)
  {
    hide WellFormed, Emit, Resolved;
    if k > 0 {
      OutLength(f, env, k - 1);
      LiteralRoom(f, k - 1);
      EmitShape(f, env, k - 1, Out(f, env, k - 1), 0);
    }
  }

  lemma PrefixStep(p: seq<Byte>, a: seq<Byte>, b: seq<Byte>)
    requires p <= a && |p| <= |b| && b[..|p|] == a[..|p|]
    ensures p <= b
  {
  }

  /** Bytes up to the end of an item that is no literal are never changed again. */
  lemma {:induction false} OutKeeps(f: seq<Item>, env: Env, j: nat, k: nat)
    requires WellFormed(f) && Resolved(f) && j < k <= |f| && !f[j].Literal()
    ensures Out(f, env, j + 1) <= Out(f, env, k)
    decreases k
  {
    hide WellFormed, Resolved, Emit, Fin;
    if j + 1 < k {
      OutKeeps(f, env, j, k - 1);
      KeepRoom(f, j, k - 1);
      FinMonotone(f, j + 1, k);
      OutLength(f, env, j + 1);
      OutLength(f, env, k - 1);
      OutLength(f, env, k);
      EmitShape(f, env, k - 1, Out(f, env, k - 1), Fin(f, j + 1));
      PrefixStep(Out(f, env, j + 1), Out(f, env, k - 1), Out(f, env, k));
    }
  }

  lemma KeepRoom(f: seq<Item>, j: nat, k: nat)
    requires WellFormed(f) && j < k < |f| && !f[j].Literal()
    ensures 0 <= Fin(f, j + 1) <= Fin(f, k)
    ensures f[k].Rel() ==> Fin(f, j + 1) <= Fin(f, k) - 1
    ensures (f[k].Rel() && f[k].Shrink() == 4) || f[k].Short() ==> Fin(f, j + 1) <= Fin(f, k) - 2
  {
    LiteralRoom(f, k);
    assert Placed(f, k);
    FinMonotone(f, 0, j + 1);
    FinMonotone(f, j + 1, k);
    if f[k].Rel() {
      FinMonotone(f, j + 1, k - 1);
    }
    if (f[k].Rel() && f[k].Shrink() == 4) || f[k].Short() {
      FinMonotone(f, j + 1, k - 2);
    }
  }

  /** A 32 bit displacement in front of offset `end` leads to offset `dest`. */
  predicate LongJump(bytes: seq<Byte>, end: int, dest: int) {
    4 <= end <= |bytes| && end + Signed32(bytes[end - 4..end]) == dest
  }

  predicate ShortJump(bytes: seq<Byte>, end: int, dest: int) {
    1 <= end <= |bytes| && end + Signed8(bytes[end - 1..end]) == dest
  }

  predicate ByteAt(bytes: seq<Byte>, i: int, b: int) {
    0 <= i < |bytes| && bytes[i] == b
  }

  /** What a processor finds at the end of a branch: the opcode in its long or short form,
      and a displacement that takes it from the end of the branch to offset `dest`. */
  predicate Decodes(bytes: seq<Byte>, op: Byte, end: int, dest: int) {
    || (LongJump(bytes, end, dest) && ByteAt(bytes, end - 5, op) &&
        (op / 16 == 8 ==> ByteAt(bytes, end - 6, 0x0f)))
    || (ShortJump(bytes, end, dest) && op == 0xe9 && ByteAt(bytes, end - 2, 0xeb))
    || (ShortJump(bytes, end, dest) && op / 16 == 8 && ByteAt(bytes, end - 2, op as int - 0x10))
  }

  lemma LongDecodes(out: seq<Byte>, n: int, op: Byte, dest: int)
    requires |out| >= 1 && out[|out| - 1] == op
    requires op / 16 == 8 ==> |out| >= 2 && out[|out| - 2] == 0x0f
    requires -0x80000000 <= n < 0x80000000 && dest == |out| + 4 + n
    ensures Decodes(Branch(out, 0, n), op, |out| + 4, dest)
  {
    hide Signed32, LittleEndian;
    Signed32Inverse(n);
    var r := Branch(out, 0, n);
    assert r[|out|..|out| + 4] == LittleEndian(n, 4);
  }

  lemma ShortDecodes(out: seq<Byte>, cut: int, n: int, op: Byte, dest: int)
    requires |out| >= 1 && out[|out| - 1] == op
    requires (cut == 3 && op == 0xe9) || (cut == 4 && op / 16 == 8 && |out| >= 2)
    requires Int8(n) && dest == |out| + 4 - cut + n
    ensures Decodes(Branch(out, cut, n), op, |out| + 4 - cut, dest)
  {
    hide Signed8, LittleEndian, Branch;
    Signed8Inverse(n);
    ShortBranch(out, cut, n);
  }

  lemma ShortBranch(out: seq<Byte>, cut: int, n: int)
    requires |out| >= 1 && (cut == 3 || (cut == 4 && |out| >= 2))
    ensures var r, e := Branch(out, cut, n), |out| + 4 - cut;
            && |r| == e >= 2 && r[e - 1..e] == LittleEndian(n, 1)
            && r[e - 2] == if cut == 3 then 0xeb else (out[|out| - 1] as int - 0x10) % 256
  {
    hide LittleEndian;
    assert |LittleEndian(n, 1)| == 1;
  }

  lemma SlicePrefix(bytes: seq<Byte>, pre: seq<Byte>, a: nat, b: nat)
    requires a <= b <= |pre| && pre <= bytes
    ensures bytes[a..b] == pre[a..b]
  {
  }

  lemma DecodesPrefix(bytes: seq<Byte>, pre: seq<Byte>, op: Byte, end: int, dest: int)
    requires Decodes(pre, op, end, dest) && pre <= bytes
    ensures Decodes(bytes, op, end, dest)
  {
    hide Signed32, Signed8;
    if LongJump(pre, end, dest) {
      SlicePrefix(bytes, pre, end - 4, end);
    }
    if ShortJump(pre, end, dest) {
      SlicePrefix(bytes, pre, end - 1, end);
    }
  }

  /** The opcode of branch k is at the end of the output in front of it. */
  lemma OpcodeInFront(f: seq<Item>, env: Env, k: nat)
    requires WellFormed(f) && k < |f| && f[k].Rel()
    ensures var out := Out(f, env, k);
            && |out| >= 1 && out[|out| - 1] == f[k].op
            && (f[k].Shrink() == 4 ==> |out| >= 2 && out[|out| - 2] == 0x0f)
  {
    assert Placed(f, k);
    LiteralTail(f, env, k);
    if f[k].Shrink() == 4 {
      LiteralTail(f, env, k - 1);
    }
  }

  lemma OutBranch(f: seq<Item>, env: Env, k: nat, t: nat)
    requires WellFormed(f) && Resolved(f) && k < |f| && Jumps(f, k, t)
    ensures var out, cut := Out(f, env, k), ItemCut(f, k);
            && (cut == 0 || cut == f[k].Shrink())
            && Fin(f, k + 1) == |out| + 4 - cut
            && Out(f, env, k + 1) == Branch(out, cut, Fin(f, t) - Fin(f, k + 1))
  {
    hide WellFormed, Resolved, Fin, Branch;
    OutLength(f, env, k);
    ItemFits(f, k);
    TargetUnique(f, k, t);
  }

  /** The output up to the end of branch k decodes to a jump to its label. */
  lemma BranchDecodes(f: seq<Item>, env: Env, k: nat, t: nat)
    requires WellFormed(f) && Resolved(f) && k < |f| && Jumps(f, k, t)
    requires At(f, |f|) < 0x80000000
    ensures Decodes(Out(f, env, k + 1), f[k].op, Fin(f, k + 1), Fin(f, t))
  {
    hide WellFormed, Resolved, Fin, Cut, ItemCut, Distance, Branch, Decodes, Out;
    OutBranch(f, env, k, t);
    OpcodeInFront(f, env, k);
    OffsetsFit(f, k + 1);
    OffsetsFit(f, t);
    var out, cut := Out(f, env, k), ItemCut(f, k);
    if cut != 0 {
      ShortReaches(f, k, t);
      ShortDecodes(out, cut, Fin(f, t) - Fin(f, k + 1), f[k].op, Fin(f, t));
    } else {
      LongDecodes(out, Fin(f, t) - Fin(f, k + 1), f[k].op, Fin(f, t));
    }
  }

  lemma OffsetsFit(f: seq<Item>, k: nat)
    requires WellFormed(f) && k <= |f|
    ensures 0 <= Fin(f, k) <= At(f, |f|)
  {
    FinMonotone(f, 0, k);
    FinMonotone(f, k, |f|);
    FinMonotone(f, 0, |f|);
  }

  /** Every branch to a label of the program, decoded from the final bytes in its short or
      long form, jumps to the final offset of its label. */
  lemma BranchesLand(f: seq<Item>, env: Env, k: nat, t: nat)
    requires WellFormed(f) && Resolved(f) && k < |f| && Jumps(f, k, t)
    requires At(f, |f|) < 0x80000000
    ensures Decodes(Out(f, env, |f|), f[k].op, Fin(f, k + 1), Fin(f, t))
  {
    hide WellFormed, Resolved, Fin, Out, Decodes;
    BranchDecodes(f, env, k, t);
    OutKeeps(f, env, k, |f|);
    DecodesPrefix(Out(f, env, |f|), Out(f, env, k + 1), f[k].op, Fin(f, k + 1), Fin(f, t));
  }

  /** A branch without label in the program is long, and leads to the address of its global
      if that is within reach. */
  lemma ExternalLands(f: seq<Item>, env: Env, k: nat)
    requires WellFormed(f) && Resolved(f) && k < |f| && f[k].Rel() && Target(f, k) == -1
    requires -0x80000000 <= ExtDisp(env, f[k].link, Fin(f, k)) < 0x80000000
    ensures Decodes(Out(f, env, |f|), f[k].op, Fin(f, k + 1), Fin(f, k) + 4 + ExtDisp(env, f[k].link, Fin(f, k)))
  {
    hide WellFormed, Resolved, Fin, Out, Decodes, Branch, ExtDisp;
    var n := ExtDisp(env, f[k].link, Fin(f, k));
    ExternalBranch(f, env, k);
    OpcodeInFront(f, env, k);
    LongDecodes(Out(f, env, k), n, f[k].op, Fin(f, k) + 4 + n);
    OutKeeps(f, env, k, |f|);
    DecodesPrefix(Out(f, env, |f|), Out(f, env, k + 1), f[k].op, Fin(f, k + 1), Fin(f, k) + 4 + n);
  }

  lemma ExternalBranch(f: seq<Item>, env: Env, k: nat)
    requires WellFormed(f) && Resolved(f) && k < |f| && f[k].Rel() && Target(f, k) == -1
    ensures |Out(f, env, k)| == Fin(f, k) && Fin(f, k + 1) == Fin(f, k) + 4
    ensures Out(f, env, k + 1) == Branch(Out(f, env, k), 0, ExtDisp(env, f[k].link, Fin(f, k)))
  {
    hide WellFormed, Resolved, Fin;
    OutLength(f, env, k);
    ItemFits(f, k);
  }
}

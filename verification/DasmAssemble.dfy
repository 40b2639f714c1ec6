/** A whole assembly: setup, a program of put and check calls, link and encode. */
module DasmAssemble {
  import opened DasmLayout
  import opened DasmLabels
  import opened DasmWalk
  import opened DasmState
  import opened DasmTrace
  import opened DasmFlat
  import opened DasmLink
  import opened DasmEncoder
  import opened DasmBytes

  /** Reference h, item g of program f, means definition d, item k of the program, and the
      final bytes, decoded, jump there. */
  ghost predicate Reaches(hist: seq<Event>, h: int, f: seq<Item>, out: seq<Byte>, g: int, d: int, k: int) {
    && 0 <= h && 0 <= d && BindsTo(hist, h, d)
    && 0 <= k < |f| && f[k].Label() && f[k].pos == hist[d].pos && 0 <= g < |f|
    && Decodes(out, f[g].op, Fin(f, g + 1), Fin(f, k)) && Tight(f, g, k)
  }

  /** The address of global i, or 0 if it has none. */
  function Address(env: Env, i: int): int { if i in env.globals then env.globals[i] else 0 }

  /** Reference h, item g of program f, is to a global that the program does not define, and
      the final bytes jump to its address if that is within reach. */
  ghost predicate Leaves(hist: seq<Event>, h: int, f: seq<Item>, env: Env, out: seq<Byte>, g: int) {
    && 0 <= h < |hist| && hist[h].key.LG? && hist[h].key.i >= 10 && NoDef(hist, hist[h].key, 0, |hist|)
    && 0 <= g < |f|
    && (-0x80000000 <= Address(env, hist[h].key.i) - env.base - Fin(f, g + 1) < 0x80000000 ==>
          Decodes(out, f[g].op, Fin(f, g + 1), Address(env, hist[h].key.i) - env.base))
  }

  /** What every branch promises: its event is the reference that its action makes, and it
      reaches the definition meant by it - for a forward reference the next one, else the
      latest before it, else the first after it - or leaves to an undefined global. */
  ghost predicate Lands(al: ActList, t: Trace, f: seq<Item>, env: Env, out: seq<Byte>, s: int, m: int) {
    0 <= s < |t.walk| && 0 <= m < |t.walk[s]| &&
    var it, g := t.walk[s][m], Base(t.walk, s) + m;
    && 0 <= it.ev < |t.hist| && t.hist[it.ev].key == KeyOf(al, it) && t.hist[it.ev].fwd == FwdOf(al, it)
    && ((exists d, k :: Reaches(t.hist, it.ev, f, out, g, d, k)) || Leaves(t.hist, it.ev, f, env, out, g))
  }

  lemma BranchLands(al: ActList, e: Enc, t: Trace, lgsize: int, env: Env, s: nat, m: nat)
    requires t.walk == e.walk && t.hist == e.lbl.hist
    requires Ready(al, e, lgsize) && Sized(e) && s < |e.walk| && m < |e.walk[s]| && IsRel(al, e.walk[s][m])
    requires At(Program(al, e), |Program(al, e)|) < 0x80000000
    ensures Lands(al, t, Program(al, e), env, Out(Program(al, e), env, |Program(al, e)|), s, m)
  {
    hide ListOk, WellFormed, Resolved, Decodes, Out, Fin, Program, NoDef, SectionsOk, EventsAt, AllMarked, Settled,
         Jumps, BindsTo, KeyOf, FwdOf, MarksOf, Leaves, Reaches, Tight;
    ReadyProgram(al, e, lgsize);
    MarkedParts(e.bufs, e.lbl, lgsize);
    BranchTarget(al, e, s, m);
    BranchEvent(al, e, lgsize, s, m);
    var f, h, g := Program(al, e), e.walk[s][m].ev, Base(e.walk, s) + m;
    if Settled(e.bufs, e.lbl, h) {
      var d := e.lbl.bind[h];
      var (s', m') := e.at[d];
      BranchesLand(f, env, g, Base(e.walk, s') + m');
      LongIsNeeded(f, g, Base(e.walk, s') + m');
      SettledMeans(al, e, env, h, g, Base(e.walk, s') + m');
    } else {
      ProgramRel(al, e, s, m);
      NoTarget(al, e, g);
      MarkerLeaves(e.lbl.hist, h, f, env, g);
    }
  }

  lemma MarkerLeaves(hist: seq<Event>, h: nat, f: seq<Item>, env: Env, g: nat)
    requires WellFormed(f) && Resolved(f) && g < |f| && f[g].Rel() && Target(f, g) == -1
    requires h < |hist| && hist[h].key.LG? && hist[h].key.i >= 10 && NoDef(hist, hist[h].key, 0, |hist|)
    requires f[g].link == -(hist[h].key.i as int)
    ensures Leaves(hist, h, f, env, Out(f, env, |f|), g)
  {
    hide WellFormed, Resolved, Decodes, Out, Fin, NoDef;
    ExternalBranch(f, env, g);
    if -0x80000000 <= ExtDisp(env, f[g].link, Fin(f, g)) < 0x80000000 {
      ExternalLands(f, env, g);
    }
  }

  lemma MarkedParts(b: Bufs, l: Labels, lgsize: int)
    requires AllMarked(b, l, lgsize)
    ensures EventsOk(b, l)
  {
  }

  lemma SettledMeans(al: ActList, e: Enc, env: Env, h: nat, g: nat, k: nat)
    requires Sized(e) && Settled(e.bufs, e.lbl, h) && Jumps(Program(al, e), g, k)
    requires Program(al, e)[g].link == Slot(e.bufs, e.lbl.hist[h].pos)
    requires var f := Program(al, e); Decodes(Out(f, env, |f|), f[g].op, Fin(f, g + 1), Fin(f, k)) && Tight(f, g, k)
    ensures var f := Program(al, e); Reaches(e.lbl.hist, h, f, Out(f, env, |f|), g, e.lbl.bind[h], k)
  {
    hide Decodes, Out, Fin, Program, NoDef, Tight;
  }

  lemma BranchEvent(al: ActList, e: Enc, lgsize: int, s: nat, m: nat)
    requires EventsAt(al, e) && AllMarked(e.bufs, e.lbl, lgsize)
    requires s < |e.walk| && m < |e.walk[s]| && IsRel(al, e.walk[s][m])
    ensures var h, l := e.walk[s][m].ev, e.lbl;
            && 0 <= h < |l.hist| && l.hist[h].key == KeyOf(al, e.walk[s][m]) && l.hist[h].fwd == FwdOf(al, e.walk[s][m])
            && (Settled(e.bufs, l, h) ||
                (&& NoDef(l.hist, l.hist[h].key, 0, |l.hist|) && l.hist[h].key.LG? && l.hist[h].key.i >= 10
                 && Slot(e.bufs, l.hist[h].pos) == -(l.hist[h].key.i as int)))
  {
    hide Settled, NoDef;
    assert EventOf(al, e, s, m);
    var h := e.walk[s][m].ev;
    assert EventAt(al, e, h);
    assert Marked(e.bufs, e.lbl, lgsize, h);
    assert TableOk(e.lbl, e.lbl.hist[h].key);
  }

  // ---------------------------------------------------------------- worst-case size

  lemma {:induction false} WorstIs(al: ActList, e: Enc, n: nat)
    requires SectionsOk(al, e, 0, -1) && n <= |e.walk|
    ensures Sized(e) && OfsBase(e.ofs, n) == WorstSize(e.walk[..n])
  {
    if n > 0 {
      WorstIs(al, e, n - 1);
      SectionParts(al, e, n - 1);
      assert e.walk[..n][..n - 1] == e.walk[..n - 1];
    }
  }

  /** The worst-case size of the program is that of its trace. */
  lemma ProgramSize(al: ActList, e: Enc, lgsize: int)
    requires Ready(al, e, lgsize) && Sized(e)
    ensures At(Program(al, e), |Program(al, e)|) == WorstSize(e.walk)
  {
    hide ListOk, AllMarked, EventsAt, SectionsOk;
    ReadyProgram(al, e, lgsize);
    ProgramLength(al, e);
    ProgramStarts(al, e, |e.walk|);
    WorstIs(al, e, |e.walk|);
    assert e.walk[..|e.walk|] == e.walk;
  }

  // ---------------------------------------------------------------- the whole assembly

  /** The result of assembling a program of calls: the first error of a call, a pending
      local label at the end, a pending PC label, or none. */
  function Outcome(al: ActList, lim: Limits, calls: seq<Call>): Status {
    var r := Calls(al, lim, Fresh(lim), calls);
    var c := CheckTrace(r.1, -1);
    if r.0 != Ok then r.0
    else if c.0 != Ok then c.0
    else if exists i: nat | i < lim.pcsize :: PC(i) in c.1.marks.pending then UndefPC
    else Ok
  }

  /** Output `out` is that of program f; the steps of trace t, section by section, have written all
      of it, each what its action and argument ask for, and every branch lands. */
  ghost predicate Assembled(al: ActList, t: Trace, f: seq<Item>, env: Env, out: seq<Byte>) {
    && WellFormed(f) && out == Out(f, env, |f|)
    && |f| == Base(t.walk, |t.walk|) && Fin(f, 0) == 0 && |out| == Fin(f, |f|)
    && (forall s: nat, m: nat :: s < |t.walk| && m < |t.walk[s]| ==> Written(al, t.walk, f, out, s, m))
    && (WorstSize(t.walk) < 0x80000000 ==>
          forall s, m :: 0 <= s < |t.walk| && 0 <= m < |t.walk[s]| && IsRel(al, t.walk[s][m]) ==>
            Lands(al, t, f, env, out, s, m))
  }

  lemma FirstOffset(f: seq<Item>)
    ensures Fin(f, 0) == 0
  {
  }

  lemma AllLand(al: ActList, e: Enc, t: Trace, lgsize: int, env: Env)
    requires Ready(al, e, lgsize) && Sized(e) && t.walk == e.walk && t.hist == e.lbl.hist && Fits(al, t)
    ensures var f := Program(al, e); Assembled(al, t, f, env, Out(f, env, |f|))
  {
    hide ListOk, WellFormed, Resolved, Out, Fin, Program, SectionsOk, EventsAt, AllMarked, Lands, IsRel, Fits, Written,
      Base;
    ReadyProgram(al, e, lgsize);
    ProgramSize(al, e, lgsize);
    ProgramLength(al, e);
    var f := Program(al, e);
    OutLength(f, env, |f|);
    FirstOffset(f);
    forall s: nat, m: nat | s < |t.walk| && m < |t.walk[s]| ensures Written(al, t.walk, f, Out(f, env, |f|), s, m) {
      StepWritten(al, e, t, f, env, s, m);
    }
    if WorstSize(t.walk) < 0x80000000 {
      forall s, m | 0 <= s < |t.walk| && 0 <= m < |t.walk[s]| && IsRel(al, t.walk[s][m])
        ensures Lands(al, t, f, env, Out(f, env, |f|), s, m)
      {
        BranchLands(al, e, t, lgsize, env, s, m);
      }
    }
  }

  /** The room left in a section, read from its buffer. */
  lemma RoomLeft(enc: Encoder)
    requires enc.Valid()
    ensures enc.section < |enc.bufs| == |enc.walk|
    ensures Room(enc.al, enc.walk[enc.section]) == BIAS - |enc.bufs[enc.section]|
  {
    hide Good;
    GoodSections(enc.al, enc.View(), enc.section, -1);
    SectionFacts(enc.al, enc.View(), enc.section, -1);
  }

  method RunCall(enc: Encoder, call: Call)
    requires enc.Valid() && enc.status.Ok? && CallOk(enc.al, enc.Now(), call)
    modifies enc
    ensures enc.status == CallTrace(enc.al, old(enc.Lim()), old(enc.Now()), call).0
    ensures enc.status.Ok? ==>
              && enc.Valid() && enc.Lim() == old(enc.Lim())
              && enc.Now() == CallTrace(enc.al, old(enc.Lim()), old(enc.Now()), call).1
  {
    hide PutTrace, CheckTrace, PutOk, StartOk, Room, MarksOf;
    hide Encoder.Inside;
    match call {
      case Put(start, args) =>
        RoomLeft(enc);
        enc.Put(start, args);
      case Check(secmatch) =>
        enc.CheckStep(secmatch);
    }
  }

  /** The calls of a program, up to the first error. */
  method RunCalls(enc: Encoder, calls: seq<Call>)
    requires enc.Valid() && enc.status.Ok? && CallsOk(enc.al, enc.Lim(), enc.Now(), calls)
    modifies enc
    ensures enc.status == Calls(enc.al, old(enc.Lim()), old(enc.Now()), calls).0
    ensures enc.status.Ok? ==>
              && enc.Valid() && enc.Lim() == old(enc.Lim())
              && enc.Now() == Calls(enc.al, old(enc.Lim()), old(enc.Now()), calls).1
  {
    hide PutTrace, CheckTrace, TraceOf, PutOk, StartOk, Room;
    hide Encoder.Inside;
    var i := 0;
    while i < |calls|
      invariant 0 <= i <= |calls| && enc.status.Ok? && enc.Valid() && enc.Lim() == old(enc.Lim())
      invariant CallsOk(enc.al, enc.Lim(), enc.Now(), calls[i..])
      invariant Calls(enc.al, enc.Lim(), enc.Now(), calls[i..]) == Calls(enc.al, enc.Lim(), old(enc.Now()), calls)
    {
      RunCall(enc, calls[i]);
      if !enc.status.Ok? { return; }
      i := i + 1;
    }
  }

  lemma PendingPc(enc: Encoder)
    requires enc.Valid()
    ensures (exists i: nat | i < enc.pcsize :: PC(i) in enc.Now().marks.pending) <==>
            (exists i: nat :: PC(i) in enc.lab && enc.lab[PC(i)] > 0)
  {
    hide Good, MarksOf;
    forall i: nat ensures PC(i) in enc.Now().marks.pending <==> PC(i) in enc.lab && enc.lab[PC(i)] > 0 {
      PlacedIs(enc.lab, PC(i));
    }
  }

  lemma LinkedIs(enc: Encoder)
    requires enc.Linked()
    ensures var e := enc.View().(bufs := enc.marked); Ready(enc.al, e, enc.lgsize) && Sized(e)
  {
  }

  /** Set up an encoder, make the calls, check that no local label is left over, link and
      encode. The result is an error exactly as `Outcome` tells; otherwise the bytes are those
      of the program that the calls describe, and every branch in them lands. */
  method Assemble(al: ActList, lim: Limits, calls: seq<Call>, base: int, globals0: map<int, int>)
    returns (res: Status, out: seq<Byte>, globals: map<int, int>, ghost e: Enc)
    requires ListOk(al) && lim.sections > 0 && lim.lgsize >= 10 && CallsOk(al, lim, Fresh(lim), calls)
    ensures res == Outcome(al, lim, calls)
    ensures res.Ok? ==>
              var t, env := Calls(al, lim, Fresh(lim), calls).1, Env(base, globals0);
              && Ready(al, e, lim.lgsize) && Sized(e) && e.walk == t.walk && e.lbl.hist == t.hist
              && Assembled(al, t, Program(al, e), env, out) && LocalsBehind(t)
              && globals == GlobalsOf(Program(al, e), env, |Program(al, e)|)
  {
    hide Calls, CallsOk, Fresh, Assembled, GlobalsOf, Program, Ready, CheckTrace, MarksOf, ListOk, Out, Fin, Fits,
      LocalsBehind;
    hide Encoder.Inside, Encoder.Linked;
    out, globals := [], globals0;
    var enc := new Encoder(al, lim.sections, lim.lgsize, lim.pcsize);
    e := enc.View();
    RunCalls(enc, calls);
    if !enc.status.Ok? { return enc.status, out, globals, e; }
    ghost var t := enc.Now();
    enc.CheckStep(-1);
    CheckKeeps(t, -1);
    FreshFits(al, lim);
    CallsFit(al, lim, Fresh(lim), calls);
    FreshBehind(lim);
    CallsBehind(al, lim, Fresh(lim), calls);
    if !enc.status.Ok? { return enc.status, out, globals, e; }
    PendingPc(enc);
    res := enc.Link();
    if !res.Ok? { return; }
    e := enc.View().(bufs := enc.marked);
    LinkedIs(enc);
    AllLand(al, e, t, lim.lgsize, Env(base, globals0));
    res, out, globals := enc.Encode(base, globals0);
  }

  lemma CheckKeeps(t: Trace, secmatch: int)
    ensures var u := CheckTrace(t, secmatch).1; u.walk == t.walk && u.hist == t.hist
  {
  }
}

/** Label threading in the put pass of DynASM: references to a label that is not placed yet
    form a chain through the section buffers, and placing the label collapses the chain. */
module DasmLabels {

  /** Buffer positions carry the section in the high bits. */
  const BIAS: int := 0x1000000

  type Bufs = seq<seq<int>>

  function Pos(sec: nat, idx: nat): int { sec * BIAS + idx }

  predicate InBufs(b: Bufs, pos: int) {
    0 <= pos && pos / BIAS < |b| && pos % BIAS < |b[pos / BIAS]|
  }

  function Slot(b: Bufs, pos: int): int {
    if InBufs(b, pos) then b[pos / BIAS][pos % BIAS] else 0
  }

  function SetSlot(b: Bufs, pos: int, v: int): Bufs
    requires InBufs(b, pos)
  {
    b[pos / BIAS := b[pos / BIAS][pos % BIAS := v]]
  }

  lemma PosParts(sec: nat, idx: nat)
    requires idx < BIAS
    ensures Pos(sec, idx) / BIAS == sec && Pos(sec, idx) % BIAS == idx
  {
  }

  predicate SameShape(a: Bufs, b: Bufs) {
    |a| == |b| && forall s :: 0 <= s < |a| ==> |a[s]| == |b[s]|
  }

  lemma SetSlotReads(b: Bufs, pos: int, v: int)
    requires InBufs(b, pos)
    ensures SameShape(b, SetSlot(b, pos, v))
    ensures forall q :: InBufs(b, q) ==>
              InBufs(SetSlot(b, pos, v), q) && Slot(SetSlot(b, pos, v), q) == (if q == pos then v else Slot(b, q))
  {
    forall q | InBufs(b, q)
      ensures InBufs(SetSlot(b, pos, v), q) && Slot(SetSlot(b, pos, v), q) == (if q == pos then v else Slot(b, q))
    {
      if q / BIAS == pos / BIAS && q % BIAS == pos % BIAS {
        assert q == pos;
      }
    }
  }

  // ---------------------------------------------------------------- labels and history

  /** A local or global label (below 10: local), or a PC label. */
  datatype Key = LG(i: nat) | PC(i: nat)
  {
    predicate Local() { LG? && i < 10 }
  }

  /** Something that happened to a label: it was placed, or referred to from `pos`. */
  datatype Event = Event(def: bool, key: Key, fwd: bool, pos: int)

  /** Label table with, as ghosts, the history of events, the definition each settled
      reference is bound to, the pending references by label, and the latest definitions. */
  datatype Labels = Labels(lab: map<Key, int>, hist: seq<Event>, bind: map<nat, nat>,
                           pend: map<Key, seq<nat>>, last: map<Key, nat>)

  ghost predicate NoDef(hist: seq<Event>, key: Key, a: int, b: int) {
    forall x :: 0 <= a <= x < b <= |hist| ==> !(hist[x].def && hist[x].key == key)
  }

  /** The definition a reference means: for a forward reference the next one; otherwise the
      latest earlier one, or the first later one if there is none before it. */
  ghost predicate BindsTo(hist: seq<Event>, h: nat, d: nat) {
    && h < |hist| && d < |hist| && !hist[h].def && hist[d].def && hist[h].key == hist[d].key
    && (if d < h then !hist[h].fwd && NoDef(hist, hist[h].key, d + 1, h)
        else NoDef(hist, hist[h].key, h, d) && (hist[h].fwd || NoDef(hist, hist[h].key, 0, h)))
  }

  /** A reference means one definition only. */
  lemma BindsToUnique(hist: seq<Event>, h: nat, d: nat, e: nat)
    requires BindsTo(hist, h, d) && BindsTo(hist, h, e)
    ensures d == e
  {
  }

  ghost predicate EventsOk(b: Bufs, l: Labels) {
    && (forall h :: 0 <= h < |l.hist| ==> InBufs(b, l.hist[h].pos) && l.hist[h].pos > 0 && l.hist[h].key in l.lab)
    && (forall g, h :: 0 <= g < h < |l.hist| ==> l.hist[g].pos != l.hist[h].pos)
  }

  /** Reference h holds the position of the definition it means. */
  ghost predicate Settled(b: Bufs, l: Labels, h: nat) {
    && h in l.bind && BindsTo(l.hist, h, l.bind[h])
    && Slot(b, l.hist[h].pos) == l.hist[l.bind[h]].pos
  }

  /** Reference h is the j-th pending one of its label and holds the one before it. */
  ghost predicate Waits(b: Bufs, l: Labels, key: Key, j: nat) {
    key in l.pend && j < |l.pend[key]| &&
    var ps, h := l.pend[key], l.pend[key][j];
    && h < |l.hist| && !l.hist[h].def && l.hist[h].key == key && h !in l.bind
    && NoDef(l.hist, key, h, |l.hist|)
    && (l.hist[h].fwd || NoDef(l.hist, key, 0, h))
    && (if j == 0 then Slot(b, l.hist[h].pos) == 0
        else ps[j-1] < h && Slot(b, l.hist[h].pos) == l.hist[ps[j-1]].pos)
  }

  /** The entry of the label table: the head of the chain, or minus the latest definition. */
  ghost predicate TableOk(l: Labels, key: Key) {
    && key in l.lab && key in l.pend
    && (if l.lab[key] > 0 then
          |l.pend[key]| > 0 && l.pend[key][|l.pend[key]| - 1] < |l.hist| &&
          l.lab[key] == l.hist[l.pend[key][|l.pend[key]| - 1]].pos
        else l.pend[key] == [])
    && (l.lab[key] < 0 ==> key in l.last && l.last[key] < |l.hist| && l.lab[key] == -l.hist[l.last[key]].pos)
    && (key in l.last ==>
          l.last[key] < |l.hist| && l.hist[l.last[key]].def && l.hist[l.last[key]].key == key &&
          NoDef(l.hist, key, l.last[key] + 1, |l.hist|))
    && (key !in l.last ==> NoDef(l.hist, key, 0, |l.hist|))
    && (l.lab[key] >= 0 && !key.Local() ==> key !in l.last)
  }

  ghost predicate RefsOk(b: Bufs, l: Labels) {
    forall h :: 0 <= h < |l.hist| && !l.hist[h].def ==>
      Settled(b, l, h) || (l.hist[h].key in l.pend && h in l.pend[l.hist[h].key])
  }

  ghost predicate ChainOk(b: Bufs, l: Labels, key: Key) {
    key in l.pend && forall j :: 0 <= j < |l.pend[key]| ==> Waits(b, l, key, j)
  }

  ghost predicate ChainsOk(b: Bufs, l: Labels) {
    forall key, j :: key in l.pend && 0 <= j < |l.pend[key]| ==> Waits(b, l, key, j)
  }

  ghost predicate TablesOk(l: Labels) {
    && l.pend.Keys == l.lab.Keys
    && (forall key :: key in l.lab ==> TableOk(l, key))
    && (forall h :: h in l.bind ==> h < |l.hist|)
  }

  /** Every reference is settled or waits in the chain of its label. */
  ghost predicate Threaded(b: Bufs, l: Labels) {
    EventsOk(b, l) && RefsOk(b, l) && ChainsOk(b, l) && TablesOk(l)
  }

  // ---------------------------------------------------------------- growing buffers

  ghost predicate Extends(a: Bufs, b: Bufs) {
    forall q :: InBufs(a, q) ==> InBufs(b, q) && Slot(b, q) == Slot(a, q)
  }

  lemma PushExtends(b: Bufs, s: nat, v: seq<int>)
    requires s < |b| && |b[s]| + |v| <= BIAS
    ensures Extends(b, b[s := b[s] + v])
  {
  }

  lemma PushedSlot(b: Bufs, s: nat, v: seq<int>, i: nat)
    requires s < |b| && |b[s]| + |v| <= BIAS && i < |v|
    ensures var q := Pos(s, |b[s]| + i);
            !InBufs(b, q) && InBufs(b[s := b[s] + v], q) && Slot(b[s := b[s] + v], q) == v[i]
  {
    PosParts(s, |b[s]| + i);
  }

  lemma GrowKeeps(a: Bufs, b: Bufs, l: Labels)
    requires Threaded(a, l) && Extends(a, b)
    ensures Threaded(b, l)
  {
    forall h | 0 <= h < |l.hist| && Settled(a, l, h) ensures Settled(b, l, h) {
    }
    forall key, j | key in l.pend && 0 <= j < |l.pend[key]| ensures Waits(b, l, key, j) {
      assert Waits(a, l, key, j);
    }
  }

  // ---------------------------------------------------------------- referring to a label

  /** A reference to a placed label is bound at once. */
  ghost function RefBound(l: Labels, key: Key, pos: int): Labels
    requires key in l.last
  {
    l.(hist := l.hist + [Event(false, key, false, pos)], bind := l.bind[|l.hist| := l.last[key]])
  }

  /** A reference to a label not placed yet is linked into its chain. */
  ghost function RefLinked(l: Labels, key: Key, fwd: bool, pos: int): Labels
    requires key in l.pend
  {
    l.(lab := l.lab[key := pos], hist := l.hist + [Event(false, key, fwd, pos)],
       pend := l.pend[key := l.pend[key] + [|l.hist|]])
  }

  lemma NoDefAppend(hist: seq<Event>, e: Event, key: Key, a: int, b: int)
    requires b <= |hist| && NoDef(hist, key, a, b)
    ensures NoDef(hist + [e], key, a, b)
    ensures b == |hist| && !(e.def && e.key == key) ==> NoDef(hist + [e], key, a, |hist| + 1)
  {
  }

  /** A new reference leaves everything that is known about other events as it is. */
  lemma SettledAppend(b: Bufs, l: Labels, l': Labels, e: Event, h: nat)
    requires l'.hist == l.hist + [e]
    requires Settled(b, l, h) && h in l'.bind && l'.bind[h] == l.bind[h]
    ensures Settled(b, l', h)
  {
    var key, d := l.hist[h].key, l.bind[h];
    if d < h {
      NoDefAppend(l.hist, e, key, d + 1, h);
    } else {
      NoDefAppend(l.hist, e, key, h, d);
      if !l.hist[h].fwd {
        NoDefAppend(l.hist, e, key, 0, h);
      }
    }
  }

  lemma WaitsAppend(b: Bufs, l: Labels, l': Labels, e: Event, key: Key, j: nat)
    requires l'.hist == l.hist + [e] && !e.def && Waits(b, l, key, j)
    requires key in l'.pend && j < |l'.pend[key]|
    requires l'.pend[key][j] == l.pend[key][j] && (j > 0 ==> l'.pend[key][j - 1] == l.pend[key][j - 1])
    requires l.pend[key][j] !in l'.bind
    ensures Waits(b, l', key, j)
  {
    var h := l.pend[key][j];
    NoDefAppend(l.hist, e, key, h, |l.hist|);
    if !l.hist[h].fwd {
      NoDefAppend(l.hist, e, key, 0, h);
    }
  }

  lemma TableAppend(l: Labels, l': Labels, e: Event, key: Key)
    requires TableOk(l, key)
    requires l'.hist == l.hist + [e] && !(e.def && e.key == key)
    requires key in l'.lab && key in l'.pend && l'.last == l.last
    requires l'.lab[key] == l.lab[key] && l'.pend[key] == l.pend[key]
    ensures TableOk(l', key)
  {
    if key in l.last {
      NoDefAppend(l.hist, e, key, l.last[key] + 1, |l.hist|);
    } else {
      NoDefAppend(l.hist, e, key, 0, |l.hist|);
    }
  }

  lemma EventsAppend(b: Bufs, l: Labels, l': Labels, e: Event)
    requires EventsOk(b, l) && l'.hist == l.hist + [e] && l.lab.Keys <= l'.lab.Keys
    requires InBufs(b, e.pos) && e.pos > 0 && e.key in l'.lab
    requires forall h :: 0 <= h < |l.hist| ==> l.hist[h].pos != e.pos
    ensures EventsOk(b, l')
  {
  }

  lemma BoundSettles(b: Bufs, l: Labels, key: Key, pos: int)
    requires TableOk(l, key) && l.lab[key] < 0 && Slot(b, pos) == -l.lab[key]
    ensures key in l.last && Settled(b, RefBound(l, key, pos), |l.hist|)
  {
    NoDefAppend(l.hist, Event(false, key, false, pos), key, l.last[key] + 1, |l.hist|);
  }

  /** Adding a reference that is not pending keeps the other references. */
  lemma RefsAppend(b: Bufs, l: Labels, l': Labels, e: Event)
    requires RefsOk(b, l) && l'.hist == l.hist + [e]
    requires forall h :: h in l.bind ==> h in l'.bind && l'.bind[h] == l.bind[h]
    requires forall k :: k in l.pend ==> k in l'.pend && l.pend[k] <= l'.pend[k]
    requires e.def || Settled(b, l', |l.hist|) || (e.key in l'.pend && |l.hist| in l'.pend[e.key])
    ensures RefsOk(b, l')
  {
    forall h | 0 <= h < |l'.hist| && !l'.hist[h].def
      ensures Settled(b, l', h) || (l'.hist[h].key in l'.pend && h in l'.pend[l'.hist[h].key])
    {
      if h < |l.hist| {
        assert l'.hist[h] == l.hist[h];
        if Settled(b, l, h) {
          SettledAppend(b, l, l', e, h);
        }
      }
    }
  }

  lemma ChainsAppend(b: Bufs, l: Labels, l': Labels, e: Event, key: Key)
    requires ChainsOk(b, l) && l'.hist == l.hist + [e] && !e.def
    requires l'.pend.Keys == l.pend.Keys
    requires forall k :: k in l.pend && k != key ==> l'.pend[k] == l.pend[k]
    requires key in l.pend ==> l.pend[key] <= l'.pend[key]
    requires key in l.pend ==> forall j :: |l.pend[key]| <= j < |l'.pend[key]| ==> Waits(b, l', key, j)
    requires forall h :: h in l'.bind ==> h in l.bind || h == |l.hist|
    ensures ChainsOk(b, l')
  {
    forall k, j | k in l'.pend && 0 <= j < |l'.pend[k]|
      ensures Waits(b, l', k, j)
    {
      if k != key || j < |l.pend[key]| {
        assert Waits(b, l, k, j);
        WaitsFree(b, l, k, j);
        hide Waits;
        WaitsAppend(b, l, l', e, k, j);
      }
    }
  }

  lemma TablesAppend(l: Labels, l': Labels, e: Event, key: Key)
    requires TablesOk(l) && l'.hist == l.hist + [e] && !e.def && l'.last == l.last
    requires l'.pend.Keys == l.pend.Keys && l'.lab.Keys == l.lab.Keys
    requires forall k :: k in l.pend && k != key ==> l'.pend[k] == l.pend[k] && l'.lab[k] == l.lab[k]
    requires key in l.lab ==> TableOk(l', key)
    requires forall h :: h in l'.bind ==> h in l.bind || h == |l.hist|
    ensures TablesOk(l')
  {
    hide TableOk;
    forall k | k in l'.lab ensures TableOk(l', k) {
      if k != key {
        TableAppend(l, l', e, k);
      }
    }
  }

  lemma RefBoundKeeps(b: Bufs, l: Labels, key: Key, pos: int)
    requires Threaded(b, l) && key in l.lab && l.lab[key] < 0
    requires InBufs(b, pos) && pos > 0 && (forall h :: 0 <= h < |l.hist| ==> l.hist[h].pos != pos)
    requires Slot(b, pos) == -l.lab[key]
    ensures key in l.last && Threaded(b, RefBound(l, key, pos))
  {
    assert TableOk(l, key);
    BoundSettles(b, l, key, pos);
    var e, l' := Event(false, key, false, pos), RefBound(l, key, pos);
    EventsAppend(b, l, l', e);
    TableAppend(l, l', e, key);
    assert forall h :: h in l.bind ==> h < |l.hist|;
    hide EventsOk, Settled, TableOk, InBufs, Slot, RefsOk, ChainsOk, TablesOk;
    RefsAppend(b, l, l', e);
    ChainsAppend(b, l, l', e, key);
    TablesAppend(l, l', e, key);
  }

  lemma WaitsFree(b: Bufs, l: Labels, key: Key, j: nat)
    requires Waits(b, l, key, j)
    ensures key in l.pend && j < |l.pend[key]|
    ensures l.pend[key][j] !in l.bind && l.pend[key][j] < |l.hist| && l.hist[l.pend[key][j]].key == key
    ensures !l.hist[l.pend[key][j]].def
  {
  }

  lemma TablesFacts(l: Labels)
    requires TablesOk(l)
    ensures l.lab.Keys == l.pend.Keys
    ensures forall h :: h in l.bind ==> h < |l.hist|
  {
  }

  lemma RefLinkedParts(b: Bufs, l: Labels, key: Key, fwd: bool, pos: int)
    requires ChainsOk(b, l) && TablesOk(l) && key in l.lab
    requires fwd || (l.lab[key] >= 0 && !key.Local())
    requires fwd ==> key.Local()
    requires pos > 0 && Slot(b, pos) == if l.lab[key] > 0 then l.lab[key] else 0
    ensures Waits(b, RefLinked(l, key, fwd, pos), key, |l.pend[key]|)
    ensures TableOk(RefLinked(l, key, fwd, pos), key)
  {
    assert TableOk(l, key);
    hide Slot, Waits, TableOk;
    LinkedWaits(b, l, key, fwd, pos);
    LinkedTable(l, key, fwd, pos);
  }

  lemma RefLinkedKeeps(b: Bufs, l: Labels, key: Key, fwd: bool, pos: int)
    requires Threaded(b, l) && key in l.lab && (fwd || (l.lab[key] >= 0 && !key.Local()))
    requires fwd ==> key.Local()
    requires InBufs(b, pos) && pos > 0 && (forall h :: 0 <= h < |l.hist| ==> l.hist[h].pos != pos)
    requires Slot(b, pos) == if l.lab[key] > 0 then l.lab[key] else 0
    ensures Threaded(b, RefLinked(l, key, fwd, pos))
  {
    hide EventsOk, Settled, TableOk, InBufs, Slot, RefsOk, ChainsOk, TablesOk, Waits;
    TablesFacts(l);
    var e, l' := Event(false, key, fwd, pos), RefLinked(l, key, fwd, pos);
    RefLinkedParts(b, l, key, fwd, pos);
    EventsAppend(b, l, l', e);
    assert l'.pend[key][|l.pend[key]|] == |l.hist|;
    RefsAppend(b, l, l', e);
    ChainsAppend(b, l, l', e, key);
    TablesAppend(l, l', e, key);
  }

  lemma LinkedTable(l: Labels, key: Key, fwd: bool, pos: int)
    requires TableOk(l, key) && pos > 0
    requires fwd || l.lab[key] >= 0
    requires fwd ==> key.Local()
    ensures TableOk(RefLinked(l, key, fwd, pos), key)
  {
    var e := Event(false, key, fwd, pos);
    if key in l.last {
      NoDefAppend(l.hist, e, key, l.last[key] + 1, |l.hist|);
    } else {
      NoDefAppend(l.hist, e, key, 0, |l.hist|);
    }
  }

  lemma LinkedWaits(b: Bufs, l: Labels, key: Key, fwd: bool, pos: int)
    requires TableOk(l, key) && |l.hist| !in l.bind
    requires fwd || (l.lab[key] >= 0 && !key.Local())
    requires |l.pend[key]| > 0 ==> Waits(b, l, key, |l.pend[key]| - 1)
    requires Slot(b, pos) == if l.lab[key] > 0 then l.lab[key] else 0
    ensures Waits(b, RefLinked(l, key, fwd, pos), key, |l.pend[key]|)
  {
    if !fwd {
      NoDefAppend(l.hist, Event(false, key, fwd, pos), key, 0, |l.hist|);
    }
  }

  // ---------------------------------------------------------------- placing a label

  /** The buffer positions of the pending references of a label, oldest first. */
  ghost function ChainPos(l: Labels, key: Key): (ps: seq<int>)
    requires key in l.pend
    ensures |ps| == |l.pend[key]|
  {
    seq(|l.pend[key]|, j requires 0 <= j < |l.pend[key]| => EventPos(l, l.pend[key][j]))
  }

  ghost function EventPos(l: Labels, h: nat): int {
    if h < |l.hist| then l.hist[h].pos else 0
  }

  /** Placing a label settles all its pending references. */
  ghost function LabelPlaced(l: Labels, key: Key, pos: int): Labels
    requires key in l.pend
  {
    l.(lab := l.lab[key := -pos], hist := l.hist + [Event(true, key, false, pos)],
       bind := l.bind + (map h | h in l.pend[key] :: |l.hist|),
       pend := l.pend[key := []], last := l.last[key := |l.hist|])
  }

  /** The buffers after the chain has been collapsed and the label's own slot was added. */
  ghost predicate Rewritten(a: Bufs, b: Bufs, ps: seq<int>, v: int) {
    forall q :: InBufs(a, q) ==> InBufs(b, q) && Slot(b, q) == (if q in ps then v else Slot(a, q))
  }

  lemma PendingFact(b: Bufs, l: Labels, key: Key, h: nat)
    requires ChainOk(b, l, key)
    ensures h in l.pend[key] ==> h < |l.hist| && l.hist[h].key == key && !l.hist[h].def && h !in l.bind
  {
    if h in l.pend[key] {
      var j :| 0 <= j < |l.pend[key]| && l.pend[key][j] == h;
      assert Waits(b, l, key, j);
    }
  }

  lemma PendingPos(b: Bufs, l: Labels, key: Key, h: nat)
    requires EventsOk(b, l) && ChainOk(b, l, key) && h < |l.hist|
    ensures l.hist[h].pos in ChainPos(l, key) <==> h in l.pend[key]
  {
    var ps := ChainPos(l, key);
    if h in l.pend[key] {
      var j :| 0 <= j < |l.pend[key]| && l.pend[key][j] == h;
      assert ps[j] == l.hist[h].pos;
    }
    if l.hist[h].pos in ps {
      var j :| 0 <= j < |ps| && ps[j] == l.hist[h].pos;
      assert Waits(b, l, key, j);
    }
  }

  /** Rewriting a chain does not touch settled references. */
  lemma SettledRewritten(a: Bufs, b: Bufs, l: Labels, key: Key, v: int, h: nat)
    requires EventsOk(a, l) && ChainOk(a, l, key) && Rewritten(a, b, ChainPos(l, key), v)
    requires Settled(a, l, h)
    ensures Settled(b, l, h)
  {
    PendingFact(a, l, key, h);
    PendingPos(a, l, key, h);
  }

  /** A reference settled before stays settled. */
  lemma PlacedOld(a: Bufs, b: Bufs, l: Labels, key: Key, pos: int, h: nat)
    requires EventsOk(a, l) && ChainsOk(a, l) && key in l.pend
    requires Rewritten(a, b, ChainPos(l, key), pos)
    requires Settled(a, l, h)
    ensures Settled(b, LabelPlaced(l, key, pos), h)
  {
    PendingFact(a, l, key, h);
    PendingPos(a, l, key, h);
    var e := Event(true, key, false, pos);
    var k, d := l.hist[h].key, l.bind[h];
    if d < h {
      NoDefAppend(l.hist, e, k, d + 1, h);
    } else {
      NoDefAppend(l.hist, e, k, h, d);
      if !l.hist[h].fwd {
        NoDefAppend(l.hist, e, k, 0, h);
      }
    }
  }

  /** A reference that waited for this label is bound to it. */
  lemma PlacedNew(a: Bufs, b: Bufs, l: Labels, key: Key, pos: int, h: nat)
    requires EventsOk(a, l) && ChainsOk(a, l) && key in l.pend
    requires Rewritten(a, b, ChainPos(l, key), pos)
    requires h in l.pend[key]
    ensures Settled(b, LabelPlaced(l, key, pos), h)
  {
    var j :| 0 <= j < |l.pend[key]| && l.pend[key][j] == h;
    assert Waits(a, l, key, j);
    PendingPos(a, l, key, h);
    var e, n := Event(true, key, false, pos), |l.hist|;
    NoDefAppend(l.hist, e, key, h, n);
    if !l.hist[h].fwd {
      NoDefAppend(l.hist, e, key, 0, h);
    }
    assert BindsTo(l.hist + [e], h, n);
  }

  lemma PlacedRefs(a: Bufs, b: Bufs, l: Labels, key: Key, pos: int)
    requires Threaded(a, l) && key in l.pend
    requires Rewritten(a, b, ChainPos(l, key), pos)
    ensures RefsOk(b, LabelPlaced(l, key, pos))
  {
    hide EventsOk, ChainsOk, TablesOk, Settled, Rewritten;
    var l' := LabelPlaced(l, key, pos);
    forall h | 0 <= h < |l'.hist| && !l'.hist[h].def
      ensures Settled(b, l', h) || (l'.hist[h].key in l'.pend && h in l'.pend[l'.hist[h].key])
    {
      if Settled(a, l, h) {
        PlacedOld(a, b, l, key, pos, h);
      } else if h in l.pend[key] {
        PlacedNew(a, b, l, key, pos, h);
      }
    }
  }

  lemma PlacedWaits(a: Bufs, b: Bufs, l: Labels, key: Key, pos: int, k: Key, j: nat)
    requires EventsOk(a, l) && ChainsOk(a, l) && key in l.pend
    requires Rewritten(a, b, ChainPos(l, key), pos)
    requires k != key && k in l.pend && j < |l.pend[k]|
    ensures Waits(b, LabelPlaced(l, key, pos), k, j)
  {
    var h, e := l.pend[k][j], Event(true, key, false, pos);
    assert Waits(a, l, k, j);
    PendingFact(a, l, key, h);
    PendingPos(a, l, key, h);
    NoDefAppend(l.hist, e, k, h, |l.hist|);
    if !l.hist[h].fwd {
      NoDefAppend(l.hist, e, k, 0, h);
    }
  }

  lemma PlacedTable(l: Labels, key: Key, pos: int, k: Key)
    requires TablesOk(l) && key in l.pend && k in l.lab && pos > 0
    ensures TableOk(LabelPlaced(l, key, pos), k)
  {
    var e := Event(true, key, false, pos);
    assert TableOk(l, k);
    if k != key {
      if k in l.last {
        NoDefAppend(l.hist, e, k, l.last[k] + 1, |l.hist|);
      } else {
        NoDefAppend(l.hist, e, k, 0, |l.hist|);
      }
    }
  }

  lemma PlacedTables(a: Bufs, l: Labels, key: Key, pos: int)
    requires TablesOk(l) && ChainsOk(a, l) && key in l.pend && pos > 0
    ensures TablesOk(LabelPlaced(l, key, pos))
  {
    hide TableOk;
    var l' := LabelPlaced(l, key, pos);
    forall k | k in l'.lab ensures TableOk(l', k) {
      PlacedTable(l, key, pos, k);
    }
    forall h | h in l'.bind ensures h < |l'.hist| {
      if h in l.pend[key] {
        var j :| 0 <= j < |l.pend[key]| && l.pend[key][j] == h;
        WaitsFree(a, l, key, j);
      }
    }
  }

  lemma PlacedEvents(a: Bufs, b: Bufs, l: Labels, key: Key, pos: int)
    requires EventsOk(a, l) && key in l.pend && key in l.lab
    requires Rewritten(a, b, ChainPos(l, key), pos)
    requires InBufs(b, pos) && pos > 0 && (forall h :: 0 <= h < |l.hist| ==> l.hist[h].pos != pos)
    ensures EventsOk(b, LabelPlaced(l, key, pos))
  {
  }

  /** Placing a label keeps the threading. */
  lemma PlacedKeeps(a: Bufs, b: Bufs, l: Labels, key: Key, pos: int)
    requires Threaded(a, l) && key in l.pend && key in l.lab
    requires Rewritten(a, b, ChainPos(l, key), pos)
    requires InBufs(b, pos) && pos > 0 && (forall h :: 0 <= h < |l.hist| ==> l.hist[h].pos != pos)
    ensures Threaded(b, LabelPlaced(l, key, pos))
  {
    hide EventsOk, TablesOk, RefsOk, Waits, Rewritten, InBufs;
    PlacedEvents(a, b, l, key, pos);
    PlacedRefs(a, b, l, key, pos);
    PlacedTables(a, l, key, pos);
    var l' := LabelPlaced(l, key, pos);
    forall k, j | k in l'.pend && 0 <= j < |l'.pend[k]| ensures Waits(b, l', k, j) {
      PlacedWaits(a, b, l, key, pos, k, j);
    }
  }
}

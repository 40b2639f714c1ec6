/** The backtracking matcher of Lua patterns, with its captures undone on failure. */
module PatternMatch {
  import opened Wrappers
  import opened Patterns
  import opened PatternMeaning

  /** The end of the match, no match, or an error raised on the way. */
  datatype Outcome = Fail | Ended(end: nat) | Error

  const MAX_XLEVEL: nat := 200

  /** The outcome is the first way of the list; without one the captures are as before. */
  ghost predicate Answer(r: Outcome, ways: seq<Way>, before: seq<Capture>, after: seq<Capture>) {
    match r
    case Error => true
    case Fail => ways == [] && after == before
    case Ended(e) => ways != [] && ways[0] == Way(e, after)
  }

  /** The pattern from p on is well formed, and its captures fit the ones at hand. */
  predicate Sound(pat: seq<int>, p: nat, caps: seq<Capture>) {
    Parse(pat, p).Some? && Proper(Parse(pat, p).value, Shape(caps))
  }

  /** The ways in which the pattern from p on matches. */
  function WaysAt(pat: seq<int>, p: nat, src: seq<int>, s: nat, caps: seq<Capture>): seq<Way> {
    if Parse(pat, p).Some? then Ways(Parse(pat, p).value, src, s, caps) else []
  }

  function Rest(pat: seq<int>, p: nat): seq<Item> { if Parse(pat, p).Some? then Parse(pat, p).value else [] }

  /** Captures lie before s. */
  predicate CapsBefore(caps: seq<Capture>, s: nat) {
    forall k :: 0 <= k < |caps| ==>
      && 0 <= caps[k].init <= s
      && (caps[k].len == UNFINISHED || caps[k].len == POSITION || (caps[k].len >= 0 && caps[k].init + caps[k].len <= s))
  }

  /** Every match is replaced by itself. */
  ghost predicate Identity(src: seq<int>, replace: (nat, nat, seq<Capture>) -> seq<int>) {
    forall s: nat, e: nat, c :: s <= e <= |src| ==> replace(s, e, c) == src[s..e]
  }

  lemma ParseStep(pat: seq<int>, p: nat, caps: seq<Capture>)
    requires At(pat, p) != 0 && Sound(pat, p, caps)
    ensures ItemAt(pat, p).Some?
    ensures var (item, next) := ItemAt(pat, p).value;
            && p < next <= |pat| && Parse(pat, next).Some? && Rest(pat, p) == [item] + Rest(pat, next)
            && Rest(pat, p)[0] == item && Rest(pat, p)[1..] == Rest(pat, next)
  {
  }

  class MatchState {
    const src: seq<int>
    const pat: seq<int>
    const capture: array<Capture>
    var level: nat
    var depth: nat

    constructor (src: seq<int>, pat: seq<int>)
      ensures this.src == src && this.pat == pat && level == 0 && depth == 0 && Valid() && fresh(capture)
    {
      this.src, this.pat := src, pat;
      level, depth := 0, 0;
      capture := new Capture[MAXCAPTURES](_ => Capture(0, 0));
    }

    predicate Valid()
      reads this
    {
      capture.Length == MAXCAPTURES && level <= MAXCAPTURES
    }

    function Caps(): (c: seq<Capture>)
      requires Valid()
      reads this, capture
      ensures |c| == level
    {
      capture[..level]
    }

    // -------------------------------------------------------------- characters and classes

    method FindClassEnd(p: nat) returns (r: Option<nat>)
      requires At(pat, p) != 0
      ensures r == ClassEnd(pat, p)
    {
      if At(pat, p) == ESC {
        return if At(pat, p + 1) == 0 then None else Some(p + 2);
      }
      if At(pat, p) != LBRACKET {
        return Some(p + 1);
      }
      var q := if At(pat, p + 1) == CARET then p + 2 else p + 1;
      while true
        invariant BracketEnd(pat, q) == ClassEnd(pat, p)
        decreases if q <= |pat| then |pat| - q else 0
      {
        if At(pat, q) == 0 {
          return None;
        }
        var esc := At(pat, q) == ESC;
        q := q + 1;
        if esc && At(pat, q) != 0 {
          q := q + 1;
        }
        if At(pat, q) == RBRACKET {
          return Some(q + 1);
        }
      }
    }

    method MatchBracketClass(c: int, p: nat, ec: nat) returns (r: bool)
      ensures r == Member(SetAt(pat, p, ec), c)
    {
      hide ElemHas, Elements;
      var sig, q := true, p;
      if At(pat, p + 1) == CARET {
        sig, q := false, p + 1;
      }
      q := q + 1;
      ghost var elems := SetAt(pat, p, ec).elems;
      ghost var k := 0;
      while q < ec
        invariant 0 <= k <= |elems| && elems[k..] == Elements(pat, q, ec) && sig == !SetAt(pat, p, ec).negated
        invariant forall j :: 0 <= j < k ==> !ElemHas(elems[j], c)
        decreases ec - q
      {
        NextElem(pat, q, ec, elems, k);
        if At(pat, q) == ESC {
          if Has(Escaped(At(pat, q + 1)), c) {
            return sig;
          }
          q := q + 2;
        } else if At(pat, q + 1) == MINUS && q + 2 < ec {
          if Has(Range(At(pat, q), At(pat, q + 2)), c) {
            return sig;
          }
          q := q + 3;
        } else {
          if Has(Char(At(pat, q)), c) {
            return sig;
          }
          q := q + 1;
        }
        k := k + 1;
      }
      NoElement(pat, q, ec);
      return !sig;
    }

    method SingleMatch(c: int, p: nat, ep: nat) returns (r: bool)
      requires ep > 0
      ensures r == Member(ClassAt(pat, p, ep), c)
    {
      hide ElemHas, SetAt;
      if At(pat, p) == DOT {
        return true;
      } else if At(pat, p) == ESC {
        return Has(Escaped(At(pat, p + 1)), c);
      } else if At(pat, p) == LBRACKET {
        r := MatchBracketClass(c, p, ep - 1);
      } else {
        return Has(Char(At(pat, p)), c);
      }
    }

    method MatchBalance(s: nat, b: int, e: int) returns (r: Option<nat>)
      requires s <= |src|
      ensures r == Balanced(src, s, b, e) && (r.Some? ==> r.value <= |src|)
    {
      if At(src, s) != b {
        return None;
      }
      var t, cont := s + 1, 1;
      BalancedInside(src, s + 1, b, e, 1);
      while t < |src|
        invariant cont > 0 && BalancedFrom(src, t, b, e, cont) == Balanced(src, s, b, e)
        decreases if t <= |src| then |src| - t else 0
      {
        if src[t] == e {
          if cont == 1 {
            return Some(t + 1);
          }
          cont := cont - 1;
        } else if src[t] == b {
          cont := cont + 1;
        }
        t := t + 1;
      }
      return None;
    }

    /** capture_to_close */
    method CaptureToClose() returns (l: int)
      requires Valid()
      ensures l == LastOpen(Caps())
    {
      l := level - 1;
      assert capture[..level] == Caps();
      while l >= 0 && capture[l].len != UNFINISHED
        invariant -1 <= l < level && LastOpen(capture[..l + 1]) == LastOpen(Caps())
      {
        assert capture[..l + 1][..l] == capture[..l];
        l := l - 1;
      }
      assert l >= 0 ==> capture[..l + 1][l].len == UNFINISHED;
    }

    // -------------------------------------------------------------- matching

    /** start_capture */
    method StartCapture(s: nat, p: nat, what: int) returns (r: Outcome)
      requires Valid() && s <= |src| && p <= |pat| && CapsBefore(Caps(), s) && (what == UNFINISHED || what == POSITION)
      modifies capture, this`level, this`depth
      ensures Valid() && (r.Ended? ==> r.end <= |src|) && (r.Fail? ==> Caps() == old(Caps()))
      ensures var caps := old(Caps()) + [Capture(s, what)];
              old(level) < MAXCAPTURES && Sound(pat, p, caps) ==>
                && Answer(r, WaysAt(pat, p, src, s, caps), old(Caps()), Caps())
                && (r.Error? ==> old(depth) + |Rest(pat, p)| >= MAX_XLEVEL)
      ensures r.Error? || depth == old(depth)
      decreases |pat| - p, 2
    {
      hide Sound, WaysAt, Rest, Parse, Ways, Proper, Shape;
      if level >= MAXCAPTURES {
        return Error;
      }
      ghost var caps := Caps();
      capture[level] := Capture(s, what);
      level := level + 1;
      assert Caps() == caps + [Capture(s, what)];
      r := Match(s, p);
      if r == Fail {
        assert Caps()[..level - 1] == caps;
        level := level - 1;
      }
    }

    /** end_capture */
    method EndCapture(s: nat, p: nat) returns (r: Outcome)
      requires Valid() && s <= |src| && p <= |pat| && CapsBefore(Caps(), s)
      modifies capture, this`level, this`depth
      ensures Valid() && (r.Ended? ==> r.end <= |src|) && (r.Fail? ==> Caps() == old(Caps()))
      ensures var l := LastOpen(old(Caps()));
              l >= 0 && Sound(pat, p, CloseAt(old(Caps()), l, s)) ==>
                && Answer(r, WaysAt(pat, p, src, s, CloseAt(old(Caps()), l, s)), old(Caps()), Caps())
                && (r.Error? ==> old(depth) + |Rest(pat, p)| >= MAX_XLEVEL)
      ensures r.Error? || depth == old(depth)
      decreases |pat| - p, 2
    {
      hide Sound, WaysAt, Rest, Parse, Ways, Proper, Shape, LastOpen;
      var l := CaptureToClose();
      if l < 0 {
        return Error;
      }
      ghost var caps := Caps();
      capture[l] := Capture(capture[l].init, s - capture[l].init);
      assert Caps() == CloseAt(caps, l, s);
      r := Match(s, p);
      if r == Fail {
        capture[l] := Capture(capture[l].init, UNFINISHED);
        assert Caps() == caps;
      }
    }

    /** match_capture: the text of an earlier capture, again. */
    method MatchCapture(s: nat, d: int) returns (r: Outcome)
      requires Valid() && s <= |src| && CapsBefore(Caps(), s)
      ensures r.Error? <==> !(0 <= d - 49 < level) || Caps()[d - 49].len == UNFINISHED
      ensures !r.Error? ==> r == if Repeats(src, s, Caps()[d - 49]) then Ended(s + Caps()[d - 49].len) else Fail
    {
      var l := d - 49;
      if l < 0 || l >= level || capture[l].len == UNFINISHED {
        return Error;
      }
      var c := capture[l];
      assert c == Caps()[l];
      if c.len >= 0 && s + c.len <= |src| && src[s..s + c.len] == src[c.init..c.init + c.len] {
        return Ended(s + c.len);
      }
      return Fail;
    }

    /** How often the item at p can be repeated from s on. */
    method CountRun(s: nat, p: nat, ep: nat) returns (n: nat)
      requires s <= |src| && ep > 0
      ensures n == RunLength(src, s, ClassAt(pat, p, ep)) && s + n <= |src|
    {
      hide Member, ClassAt;
      ghost var cl := ClassAt(pat, p, ep);
      n := 0;
      while s + n < |src|
        invariant s + n <= |src| && RunLength(src, s + n, cl) + n == RunLength(src, s, cl)
      {
        var m := SingleMatch(src[s + n], p, ep);
        if !m {
          break;
        }
        n := n + 1;
      }
    }

    /** max_expand: the item at p as often as possible, then less often. */
    method MaxExpand(s: nat, p: nat, ep: nat) returns (r: Outcome)
      requires Valid() && s <= |src| && 0 < ep < |pat| && p < ep && CapsBefore(Caps(), s)
      modifies capture, this`level, this`depth
      ensures Valid() && (r.Ended? ==> r.end <= |src|) && (r.Fail? ==> Caps() == old(Caps()))
      ensures Sound(pat, ep + 1, old(Caps())) ==>
                && Answer(r, Downward(Rest(pat, ep + 1), src, s, RunLength(src, s, ClassAt(pat, p, ep)), old(Caps())),
                          old(Caps()), Caps())
                && (r.Error? ==> old(depth) + |Rest(pat, ep + 1)| >= MAX_XLEVEL)
      ensures r.Error? || depth == old(depth)
      decreases |pat| - ep - 1, 2
    {
      hide Member, Ways, Parse, Sound, ClassAt, WaysAt, Rest, Downward, Upward, RunLength, CapsBefore;
      ghost var cl, caps := ClassAt(pat, p, ep), Caps();
      ghost var n := RunLength(src, s, cl);
      var i: int := CountRun(s, p, ep);
      while i >= 0
        invariant -1 <= i <= n && Valid() && Caps() == caps && depth == old(depth)
        invariant Sound(pat, ep + 1, caps) ==>
                    Downward(Rest(pat, ep + 1), src, s, n, caps)
                    == if i >= 0 then Downward(Rest(pat, ep + 1), src, s, i, caps) else []
      {
        CapsLater(caps, s, s + i);
        RestWays(pat, ep + 1, src, s + i, caps);
        DownwardFirst(Rest(pat, ep + 1), src, s, i, caps);
        r := Match(s + i, ep + 1);
        if r != Fail {
          return;
        }
        i := i - 1;
      }
      return Fail;
    }

    /** min_expand: the item at p as seldom as possible, then more often. */
    method MinExpand(s: nat, p: nat, ep: nat) returns (r: Outcome)
      requires Valid() && s <= |src| && 0 < ep < |pat| && p < ep && CapsBefore(Caps(), s)
      modifies capture, this`level, this`depth
      ensures Valid() && (r.Ended? ==> r.end <= |src|) && (r.Fail? ==> Caps() == old(Caps()))
      ensures Sound(pat, ep + 1, old(Caps())) ==>
                && Answer(r, Upward(Rest(pat, ep + 1), src, s, RunLength(src, s, ClassAt(pat, p, ep)), old(Caps())),
                          old(Caps()), Caps())
                && (r.Error? ==> old(depth) + |Rest(pat, ep + 1)| >= MAX_XLEVEL)
      ensures r.Error? || depth == old(depth)
      decreases |pat| - ep - 1, 2
    {
      hide Member, Ways, Parse, Sound, ClassAt, WaysAt, Rest, Upward, Downward, RunLength, CapsBefore;
      ghost var cl, caps := ClassAt(pat, p, ep), Caps();
      var t := s;
      while true
        invariant s <= t <= |src| && Valid() && Caps() == caps && depth == old(depth)
        invariant Sound(pat, ep + 1, caps) ==>
                    Upward(Rest(pat, ep + 1), src, s, RunLength(src, s, cl), caps)
                    == Upward(Rest(pat, ep + 1), src, t, RunLength(src, t, cl), caps)
        decreases |src| - t
      {
        CapsLater(caps, s, t);
        RestWays(pat, ep + 1, src, t, caps);
        r := Match(t, ep + 1);
        UpwardFirst(Rest(pat, ep + 1), src, t, RunLength(src, t, cl), caps);
        if r != Fail {
          return;
        }
        var m := false;
        if t < |src| {
          m := SingleMatch(src[t], p, ep);
        }
        RunStart(src, t, cl, m);
        if !m {
          return Fail;
        }
        t := t + 1;
      }
    }

    /** One item that starts with the escape character and is no class: balanced text, a
        frontier, or an earlier capture. */
    method StepEscape(s: nat, p: nat) returns (done: bool, r: Outcome, s': nat, p': nat)
      requires Valid() && s <= |src| && p <= |pat| && CapsBefore(Caps(), s)
      requires At(pat, p) == ESC && (At(pat, p + 1) == 98 || At(pat, p + 1) == 102 || Digit(At(pat, p + 1)))
      ensures Sound(pat, p, Caps()) && done ==> r == Fail && WaysAt(pat, p, src, s, Caps()) == []
      ensures !done ==> p < p' <= |pat| && s <= s' <= |src|
      ensures done ==> r == Fail || r == Error
      ensures Sound(pat, p, Caps()) && !done ==>
                && Sound(pat, p', Caps()) && WaysAt(pat, p, src, s, Caps()) == WaysAt(pat, p', src, s', Caps())
                && |Rest(pat, p')| < |Rest(pat, p)|
    {
      hide Sound, WaysAt, Rest, CapsBefore, Parse, Proper, Ways, ItemAt, Member, Balanced, FrontierAt, Repeats, SetAt;
      var d := At(pat, p + 1);
      done, r, s', p' := true, Error, s, p;
      if d == 98 {
        if At(pat, p + 2) == 0 || At(pat, p + 3) == 0 {
          BadItem(pat, p, Caps());
          return;
        }
        BalanceStep(pat, p, src, s, Caps());
        var t := MatchBalance(s, At(pat, p + 2), At(pat, p + 3));
        if t.None? {
          r := Fail;
          return;
        }
        BalancedLater(src, s, At(pat, p + 2), At(pat, p + 3));
        done, s', p' := false, t.value, p + 4;
      } else if d == 102 {
        if At(pat, p + 2) != LBRACKET {
          BadItem(pat, p, Caps());
          return;
        }
        var ep := FindClassEnd(p + 2);
        if ep.None? {
          BadItem(pat, p, Caps());
          return;
        }
        ClassInside(pat, p + 2);
        FrontierStep(pat, p, src, s, Caps());
        var before := MatchBracketClass(if s == 0 then 0 else At(src, s - 1), p + 2, ep.value - 1);
        var after := MatchBracketClass(At(src, s), p + 2, ep.value - 1);
        FrontierIs(src, s, SetAt(pat, p + 2, ep.value - 1), before, after);
        if before || !after {
          r := Fail;
          return;
        }
        done, p' := false, ep.value;
      } else {
        BackStep(pat, p, src, s, Caps());
        var t := MatchCapture(s, d);
        if t.Error? {
          BackError(pat, p, src, s, Caps());
          return;
        }
        if t.Fail? {
          r := Fail;
          return;
        }
        BackLater(src, s, Caps(), d);
        done, s', p' := false, t.end, p + 2;
      }
    }

    /** A class with its quantifier. */
    method StepClass(s: nat, p: nat) returns (done: bool, r: Outcome, s': nat, p': nat)
      requires Valid() && s <= |src| && p <= |pat| && CapsBefore(Caps(), s)
      requires At(pat, p) != 0 && At(pat, p) != LPAREN && At(pat, p) != RPAREN
      requires !(At(pat, p) == ESC && (At(pat, p + 1) == 98 || At(pat, p + 1) == 102 || Digit(At(pat, p + 1))))
      requires !(At(pat, p) == DOLLAR && At(pat, p + 1) == 0)
      modifies capture, this`level, this`depth
      ensures Valid() && (done && r.Ended? ==> r.end <= |src|) && (done && r.Fail? ==> Caps() == old(Caps()))
      ensures done ==> r.Error? || depth == old(depth)
      ensures !done ==> Caps() == old(Caps()) && depth == old(depth) && p < p' <= |pat| && s <= s' <= |src|
      ensures Sound(pat, p, old(Caps())) && done ==>
                && Answer(r, WaysAt(pat, p, src, s, old(Caps())), old(Caps()), Caps())
                && (r.Error? ==> old(depth) + |Rest(pat, p)| > MAX_XLEVEL)
      ensures Sound(pat, p, old(Caps())) && !done ==>
                && Sound(pat, p', Caps()) && WaysAt(pat, p, src, s, Caps()) == WaysAt(pat, p', src, s', Caps())
                && |Rest(pat, p')| < |Rest(pat, p)|
      decreases |pat| - p, 0
    {
      hide Sound, WaysAt, Rest, CapsBefore, Parse, Proper, Ways, ItemAt, ClassAt, Member;
      ghost var caps := Caps();
      done, r, s', p' := true, Error, s, p;
      var e := FindClassEnd(p);
      if e.None? {
        BadItem(pat, p, caps);
        return;
      }
      ClassInside(pat, p);
      var ep := e.value;
      RepStep(pat, p, src, s, caps, ep);
      var m := false;
      if s < |src| {
        m := SingleMatch(src[s], p, ep);
      }
      RunStart(src, s, ClassAt(pat, p, ep), m);
      var q := At(pat, ep);
      RestWays(pat, ep + 1, src, s, caps);
      RestWays(pat, ep + 1, src, s + 1, caps);
      RestWays(pat, ep, src, s + 1, caps);
      CapsLater(caps, s, s + 1);
      if q == QUEST {
        if m {
          r := Match(s + 1, ep + 1);
          OptionalTaken(pat, src, s, caps, ep, r, Caps());
          if r != Fail {
            return;
          }
        }
        done, p' := false, ep + 1;
      } else if q == STAR {
        r := MaxExpand(s, p, ep);
      } else if q == PLUS {
        r := Fail;
        if m {
          r := MaxExpand(s + 1, p, ep);
        }
      } else if q == MINUS {
        r := MinExpand(s, p, ep);
      } else if m {
        done, s', p' := false, s + 1, ep;
      } else {
        r := Fail;
      }
    }

    /** match: the first way to match the pattern from p0 on at s0. */
    method Match(s0: nat, p0: nat) returns (r: Outcome)
      requires Valid() && s0 <= |src| && p0 <= |pat| && CapsBefore(Caps(), s0)
      modifies capture, this`level, this`depth
      ensures Valid() && (r.Ended? ==> r.end <= |src|) && (r.Fail? ==> Caps() == old(Caps()))
      ensures Sound(pat, p0, old(Caps())) ==>
                && Answer(r, WaysAt(pat, p0, src, s0, old(Caps())), old(Caps()), Caps())
                && (r.Error? ==> old(depth) + |Rest(pat, p0)| >= MAX_XLEVEL)
      ensures r.Error? || depth == old(depth)
      decreases |pat| - p0, 1
    {
      hide Sound, WaysAt, Rest, CapsBefore, Parse, Proper, Ways, ItemAt, ClassAt, Member;
      depth := depth + 1;
      if depth > MAX_XLEVEL {
        return Error;
      }
      var s: nat, p: nat := s0, p0;
      ghost var caps := Caps();
      while true
        invariant Valid() && s <= |src| && p0 <= p <= |pat| && Caps() == caps && depth == old(depth) + 1
                  && CapsBefore(caps, s)
        invariant Sound(pat, p0, caps) ==>
                    && Sound(pat, p, caps) && WaysAt(pat, p0, src, s0, caps) == WaysAt(pat, p, src, s, caps)
                    && |Rest(pat, p)| <= |Rest(pat, p0)|
        decreases |pat| - p
      {
        if At(pat, p) == 0 {
          EndStep(pat, p, src, s, caps);
          r := Ended(s);
          break;
        }
        ReadItem(pat, p, caps);
        var c, d := At(pat, p), At(pat, p + 1);
        var done, s', p' := false, s, p;
        if c == LPAREN {
          OpenStep(pat, p, src, s, caps);
          if d == RPAREN {
            r := StartCapture(s, p + 2, POSITION);
          } else {
            r := StartCapture(s, p + 1, UNFINISHED);
          }
          break;
        } else if c == RPAREN {
          CloseStep(pat, p, src, s, caps);
          r := EndCapture(s, p + 1);
          break;
        } else if c == ESC && (d == 98 || d == 102 || Digit(d)) {
          done, r, s', p' := StepEscape(s, p);
        } else if c == DOLLAR && d == 0 {
          AtEndStep(pat, p, src, s, caps);
          r := if s == |src| then Ended(s) else Fail;
          break;
        } else {
          done, r, s', p' := StepClass(s, p);
        }
        if done {
          break;
        }
        CapsLater(caps, s, s');
        s, p := s', p';
      }
      if !r.Error? {
        depth := depth - 1;
      }
    }

    // -------------------------------------------------------------- searching and replacing

    /** The search of string.find and string.match: the leftmost start that matches, and the
        preferred way to match there. */
    method Find(init: nat, p: nat, anchor: bool) returns (start: nat, r: Outcome)
      requires Valid() && init <= |src| && p <= |pat|
      modifies capture, this`level, this`depth
      ensures Valid() && (r.Ended? ==> init <= start <= |src| && r.end <= |src|) && (anchor ==> start == init)
      ensures Sound(pat, p, []) && r.Ended? ==>
                && Matches(Rest(pat, p), src, start, [], Way(r.end, Caps()))
                && Chosen(Rest(pat, p), src, start, [], Way(r.end, Caps()))
                && forall t: nat, way :: init <= t < start ==> !Matches(Rest(pat, p), src, t, [], way)
      ensures Sound(pat, p, []) && r.Fail? ==>
                forall t: nat, way :: init <= t <= |src| && (anchor ==> t == init) ==>
                  !Matches(Rest(pat, p), src, t, [], way)
      ensures Sound(pat, p, []) && r.Error? ==> |Rest(pat, p)| >= MAX_XLEVEL
    {
      hide Sound, Rest, Parse, Ways, Matches, WaysAt, Chosen;
      start := init;
      while true
        invariant Valid() && init <= start <= |src| && (anchor ==> start == init)
        invariant Sound(pat, p, []) ==> forall t: nat, way :: init <= t < start ==>
                  !Matches(Rest(pat, p), src, t, [], way)
        decreases |src| - start
      {
        level, depth := 0, 0;
        assert Caps() == [];
        r := Match(start, p);
        RestWays(pat, p, src, start, []);
        FirstMatches(Rest(pat, p), src, start, r, Caps());
        if r != Fail || start == |src| || anchor {
          return;
        }
        start := start + 1;
      }
    }

    /** The loop of string.gsub; `replace` gives the text for a match from its bounds and captures. */
    method Gsub(p: nat, anchor: bool, max: int, replace: (nat, nat, seq<Capture>) -> seq<int>)
      returns (out: seq<int>, n: nat, failed: bool)
      requires Valid() && p <= |pat|
      modifies capture, this`level, this`depth
      ensures Valid()
      ensures Sound(pat, p, []) && !failed ==>
                && (out, n) == Subst(Rest(pat, p), src, 0, max, anchor, replace)
                && exists ms ::
                     Taken(Rest(pat, p), src, 0, ms, max, anchor) && out == Woven(src, 0, ms, replace) && n == |ms|
    {
      hide Sound, Rest, Parse, Ways, WaysAt, Answer, Subst, Taken, Woven;
      ghost var ms := SubstPieces(Rest(pat, p), src, 0, max, anchor, replace);
      ghost var whole := Subst(Rest(pat, p), src, 0, max, anchor, replace);
      var s := 0;
      out, n, failed := [], 0, false;
      AddedJoin([], 0, [], 0, []);
      while n < max
        invariant Valid() && 0 <= s <= |src| && !failed
        invariant Sound(pat, p, []) ==> Added(out, n, Subst(Rest(pat, p), src, s, max - n, anchor, replace)) == whole
        decreases |src| - s, max - n
      {
        level, depth := 0, 0;
        assert Caps() == [];
        var r := Match(s, p);
        if r == Error {
          failed := true;
          return;
        }
        RestWays(pat, p, src, s, []);
        EndLater(pat, p, src, s, r, Caps());
        ghost var at := max - n;
        SubstStep(Rest(pat, p), src, s, at, anchor, replace, r, Caps());
        AddedJoin(out, n, if r.Ended? then replace(s, r.end, Caps()) else [], if r.Ended? then 1 else 0,
                  if s < |src| && !(r.Ended? && r.end > s) then [src[s]] else []);
        if r.Ended? {
          n := n + 1;
          out := out + replace(s, r.end, Caps());
        }
        if r.Ended? && r.end > s {
          s := r.end;
        } else if s < |src| {
          out := out + [src[s]];
          s := s + 1;
        } else {
          assert src[s..] == [];
          assert Sound(pat, p, []) ==> Added(out, n, (src[s..], 0)) == whole;
          break;
        }
        if anchor {
          assert Sound(pat, p, []) ==> Added(out, n, (src[s..], 0)) == whole;
          break;
        }
      }
      if n >= max {
        SubstNone(Rest(pat, p), src, s, max - n, anchor, replace);
      }
      out := out + src[s..];
    }
  }

  // ---------------------------------------------------------------- substitution

  /** The text from s on with matches replaced, and how many: at each place the preferred match
      is taken, at most `left` times and only once if anchored; the search goes on after the
      match, or after the next character if the match is empty. */
  function Subst(items: seq<Item>, src: seq<int>, s: nat, left: int, anchor: bool,
                 replace: (nat, nat, seq<Capture>) -> seq<int>): (seq<int>, nat)
    requires s <= |src|
    decreases |src| - s
  {
    var ways := Ways(items, src, s, []);
    if left <= 0 then (src[s..], 0)
    else if ways != [] && s < ways[0].end <= |src| then
      var e := ways[0].end;
      Added(replace(s, e, ways[0].caps), 1,
            if anchor then (src[e..], 0) else Subst(items, src, e, left - 1, anchor, replace))
    else
      var (text, n) := if ways == [] then ([], 0) else (replace(s, s, ways[0].caps), 1);
      if s == |src| then (text, n)
      else
        Added(text + [src[s]], n,
              if anchor then (src[s + 1..], 0) else Subst(items, src, s + 1, left - n, anchor, replace))
  }

  function Added(text: seq<int>, n: nat, rest: (seq<int>, nat)): (seq<int>, nat) {
    (text + rest.0, n + rest.1)
  }

  lemma AddedJoin(out: seq<int>, n: nat, text: seq<int>, m: nat, ch: seq<int>)
    ensures forall r :: Added(out, n, Added(text, m, r)) == Added(out + text, n + m, r)
    ensures forall r :: Added(out, n, Added(text + ch, m, r)) == Added(out + text + ch, n + m, r)
    ensures forall r :: Added([], 0, r) == r
    ensures out + text + [] == out + text && text + [] == text && out + [] == out
  {
    forall r: (seq<int>, nat)
      ensures Added(out, n, Added(text, m, r)) == Added(out + text, n + m, r)
      ensures Added(out, n, Added(text + ch, m, r)) == Added(out + text + ch, n + m, r)
    {
      assert out + (text + r.0) == (out + text) + r.0;
      assert out + (text + ch + r.0) == (out + text + ch) + r.0;
    }
    forall r: (seq<int>, nat) ensures Added([], 0, r) == r {
      assert [] + r.0 == r.0;
    }
  }

  /** One turn of the loop, from the outcome of the matcher. */
  lemma SubstStep(items: seq<Item>, src: seq<int>, s: nat, left: int, anchor: bool,
                  replace: (nat, nat, seq<Capture>) -> seq<int>, r: Outcome, caps: seq<Capture>)
    requires s <= |src| && left > 0 && !r.Error?
    ensures Answer(r, Ways(items, src, s, []), [], caps) && (r.Ended? ==> s <= r.end <= |src|) ==>
              Subst(items, src, s, left, anchor, replace) ==
              if r.Ended? && r.end > s then
                Added(replace(s, r.end, caps), 1,
                      if anchor then (src[r.end..], 0) else Subst(items, src, r.end, left - 1, anchor, replace))
              else
                var (text, n) := if r.Ended? then (replace(s, r.end, caps), 1) else ([], 0);
                if s == |src| then (text, n)
                else
                  Added(text + [src[s]], n,
                        if anchor then (src[s + 1..], 0) else Subst(items, src, s + 1, left - n, anchor, replace))
  {
    hide Ways, Added;
  }

  lemma SubstNone(items: seq<Item>, src: seq<int>, s: nat, left: int, anchor: bool,
                  replace: (nat, nat, seq<Capture>) -> seq<int>)
    requires s <= |src| && left <= 0
    ensures Subst(items, src, s, left, anchor, replace) == (src[s..], 0)
  {
  }

  /** A match that is replaced. */
  datatype Piece = Piece(start: nat, end: nat, caps: seq<Capture>)

  ghost predicate NoMatch(items: seq<Item>, src: seq<int>, s: nat) {
    forall way :: !Matches(items, src, s, [], way)
  }

  /** The matches that are taken when the search starts at `from`: each is the match chosen at the
      leftmost place where there is one, the search goes on behind it, one character further if it
      is empty, and ends after `left` matches, with the text, or, if anchored, at once. */
  ghost predicate Taken(items: seq<Item>, src: seq<int>, from: nat, ms: seq<Piece>, left: int, anchor: bool)
    decreases |ms|
  {
    if ms == [] then left <= 0 || forall t: nat :: from <= t <= (if anchor then from else |src|) ==>
      NoMatch(items, src, t)
    else
      var m := ms[0];
      && left > 0 && from <= m.start <= m.end <= |src| && Chosen(items, src, m.start, [], Way(m.end, m.caps))
      && (forall t: nat :: from <= t < m.start ==> NoMatch(items, src, t))
      && if anchor then m.start == from && |ms| == 1
        else Taken(items, src, if m.end > m.start then m.end else m.start + 1, ms[1..], left - 1, anchor)
  }

  /** The text from pos on with the matches replaced, and all else as it is. */
  ghost function Woven(src: seq<int>, pos: nat, ms: seq<Piece>,
                       replace: (nat, nat, seq<Capture>) -> seq<int>): seq<int>
    decreases |ms|
  {
    if pos > |src| then []
    else if ms == [] || !(pos <= ms[0].start <= ms[0].end <= |src|) then src[pos..]
    else
      src[pos..ms[0].start] + replace(ms[0].start, ms[0].end, ms[0].caps) + Woven(src, ms[0].end, ms[1..], replace)
  }

  lemma WovenMore(src: seq<int>, pos: nat, ms: seq<Piece>, replace: (nat, nat, seq<Capture>) -> seq<int>)
    requires pos < |src| && (ms != [] ==> pos < ms[0].start <= ms[0].end <= |src|)
    ensures Woven(src, pos, ms, replace) == [src[pos]] + Woven(src, pos + 1, ms, replace)
  {
    if ms == [] {
      assert src[pos..] == [src[pos]] + src[pos + 1..];
    } else {
      var rest := Woven(src, ms[0].end, ms[1..], replace);
      assert src[pos..ms[0].start] == [src[pos]] + src[pos + 1..ms[0].start];
      Pasted3([src[pos]], src[pos + 1..ms[0].start], replace(ms[0].start, ms[0].end, ms[0].caps), rest);
    }
  }

  lemma Pasted3(a: seq<int>, b: seq<int>, c: seq<int>, d: seq<int>)
    ensures (a + b) + c + d == a + (b + c + d)
  {
  }

  lemma WovenFirst(src: seq<int>, m: Piece, ms: seq<Piece>, replace: (nat, nat, seq<Capture>) -> seq<int>)
    requires m.start <= m.end <= |src|
    ensures Woven(src, m.start, [m] + ms, replace)
         == replace(m.start, m.end, m.caps) + Woven(src, m.end, ms, replace)
  {
    assert ([m] + ms)[1..] == ms && src[m.start..m.start] == [];
  }

  lemma TakenFirst(items: seq<Item>, src: seq<int>, from: nat, ms: seq<Piece>, left: int, anchor: bool)
    requires Taken(items, src, from, ms, left, anchor) && ms != []
    ensures from <= ms[0].start <= ms[0].end <= |src|
  {
    hide Chosen, NoMatch;
  }

  /** Nothing is found at `from`. */
  lemma TakenLater(items: seq<Item>, src: seq<int>, from: nat, ms: seq<Piece>, left: int)
    requires Taken(items, src, from + 1, ms, left, false) && NoMatch(items, src, from)
    ensures Taken(items, src, from, ms, left, false)
  {
    hide Chosen, NoMatch;
  }

  lemma TakenMore(items: seq<Item>, src: seq<int>, m: Piece, ms: seq<Piece>, left: int, anchor: bool)
    requires left > 0 && m.start <= m.end <= |src| && Chosen(items, src, m.start, [], Way(m.end, m.caps))
    requires if anchor then ms == []
      else Taken(items, src, if m.end > m.start then m.end else m.start + 1, ms, left - 1, anchor)
    ensures Taken(items, src, m.start, [m] + ms, left, anchor)
  {
    hide Chosen, NoMatch;
    assert ([m] + ms)[1..] == ms;
  }

  /** What substitution is: the matches taken are replaced, everything else stays, and the number
      of matches is counted. */
  lemma {:induction false} SubstPieces(items: seq<Item>, src: seq<int>, s: nat, left: int, anchor: bool,
                                       replace: (nat, nat, seq<Capture>) -> seq<int>) returns (ms: seq<Piece>)
    requires s <= |src|
    ensures Taken(items, src, s, ms, left, anchor)
    ensures Subst(items, src, s, left, anchor, replace) == (Woven(src, s, ms, replace), |ms|)
    decreases |src| - s
  {
    hide Ways, Chosen, Matches, Taken, NoMatch, Woven, Subst;
    ms := [];
    TakenNone(items, src, s, left, anchor);
    WovenNone(src, s, replace);
    var ways := Ways(items, src, s, []);
    FirstFound(items, src, s);
    if left <= 0 {
      SubstNone(items, src, s, left, anchor, replace);
    } else if ways == [] {
      SubstStep(items, src, s, left, anchor, replace, Fail, []);
      Pasted([], if s < |src| then [src[s]] else [], src[s..]);
      if s < |src| {
        WovenMore(src, s, [], replace);
        WovenNone(src, s + 1, replace);
        if !anchor {
          ms := SubstPieces(items, src, s + 1, left, anchor, replace);
          TakenLater(items, src, s, ms, left);
          if ms != [] {
            TakenFirst(items, src, s + 1, ms, left, anchor);
          }
          WovenMore(src, s, ms, replace);
        }
      }
    } else {
      var m := Piece(s, ways[0].end, ways[0].caps);
      SubstStep(items, src, s, left, anchor, replace, Ended(m.end), m.caps);
      var more := [];
      WovenNone(src, m.end, replace);
      if m.end > s {
        if !anchor {
          more := SubstPieces(items, src, m.end, left - 1, anchor, replace);
        }
      } else if s < |src| {
        WovenNone(src, s + 1, replace);
        WovenMore(src, s, [], replace);
        if !anchor {
          more := SubstPieces(items, src, s + 1, left - 1, anchor, replace);
          if more != [] {
            TakenFirst(items, src, s + 1, more, left - 1, anchor);
          }
          WovenMore(src, s, more, replace);
        }
        Pasted(replace(s, s, m.caps), [src[s]], Woven(src, s + 1, more, replace));
      } else {
        TakenNone(items, src, s + 1, left - 1, anchor);
      }
      TakenMore(items, src, m, more, left, anchor);
      WovenFirst(src, m, more, replace);
      Pasted(replace(s, m.end, m.caps), [], []);
      ms := [m] + more;
    }
  }

  lemma Pasted(a: seq<int>, b: seq<int>, c: seq<int>)
    ensures (a + b) + c == a + (b + c) && a + [] == a && [] + b == b
  {
  }

  lemma TakenNone(items: seq<Item>, src: seq<int>, s: nat, left: int, anchor: bool)
    ensures left <= 0 || (s > |src| && !anchor) || (NoMatch(items, src, s) && (anchor || s == |src|)) ==>
              Taken(items, src, s, [], left, anchor)
  {
    hide NoMatch;
  }

  lemma WovenNone(src: seq<int>, s: nat, replace: (nat, nat, seq<Capture>) -> seq<int>)
    requires s <= |src|
    ensures Woven(src, s, [], replace) == src[s..] && (s == |src| ==> src[s..] == [])
  {
  }

  /** What is found at s. */
  lemma FirstFound(items: seq<Item>, src: seq<int>, s: nat)
    requires s <= |src|
    ensures var ways := Ways(items, src, s, []);
            if ways == [] then NoMatch(items, src, s)
            else s <= ways[0].end <= |src| && Chosen(items, src, s, [], ways[0])
  {
    hide Ways, Chosen, Matches;
    var ways := Ways(items, src, s, []);
    if ways == [] {
      forall way ensures !Matches(items, src, s, [], way) {
        WaysAreMatches(items, src, s, [], way);
      }
    } else {
      assert ways[0] in ways;
      WaysLater(items, src, s, [], ways[0]);
      FirstIsChosen(items, src, s, [], ways[0]);
    }
  }

  /** Replacing every match by itself changes nothing, and neither does replacing none. */
  lemma {:induction false} SubstIdentity(items: seq<Item>, src: seq<int>, s: nat, left: int, anchor: bool,
                                         replace: (nat, nat, seq<Capture>) -> seq<int>)
    requires s <= |src|
    ensures var r := Subst(items, src, s, left, anchor, replace);
            && (Identity(src, replace) || r.1 == 0 ==> r.0 == src[s..]) && (left >= 0 ==> r.1 <= left)
    decreases |src| - s
  {
    hide Ways;
    if left > 0 {
      var ways := Ways(items, src, s, []);
      if ways != [] && s < ways[0].end <= |src| {
        SubstIdentity(items, src, ways[0].end, left - 1, anchor, replace);
        assert src[s..ways[0].end] + src[ways[0].end..] == src[s..];
      } else if s < |src| {
        SubstIdentity(items, src, s + 1, if ways == [] then left else left - 1, anchor, replace);
        assert [src[s]] + src[s + 1..] == src[s..];
      }
    }
  }

  predicate Has(e: Elem, c: int) { ElemHas(e, c) }

  lemma NoElement(pat: seq<int>, q: nat, ec: nat)
    requires q >= ec
    ensures Elements(pat, q, ec) == []
  {
  }

  lemma NextElem(pat: seq<int>, q: nat, ec: nat, elems: seq<Elem>, k: nat)
    requires q < ec && k <= |elems| && elems[k..] == Elements(pat, q, ec)
    ensures k < |elems|
    ensures var next := if At(pat, q) == ESC then q + 2
                        else if At(pat, q + 1) == MINUS && q + 2 < ec then q + 3
                        else q + 1;
            elems[k + 1..] == Elements(pat, next, ec)
    ensures elems[k] == if At(pat, q) == ESC then Escaped(At(pat, q + 1))
                        else if At(pat, q + 1) == MINUS && q + 2 < ec then Range(At(pat, q), At(pat, q + 2))
                        else Char(At(pat, q))
  {
    assert elems[k] == elems[k..][0] && elems[k + 1..] == elems[k..][1..];
  }

  lemma CapsLater(caps: seq<Capture>, s: nat, t: nat)
    requires CapsBefore(caps, s) && s <= t
    ensures CapsBefore(caps, t)
  {
  }

  lemma DownwardFirst(rest: seq<Item>, src: seq<int>, s: nat, n: nat, caps: seq<Capture>)
    ensures var d, w := Downward(rest, src, s, n, caps), Ways(rest, src, s + n, caps);
            && (w != [] ==> d != [] && d[0] == w[0])
            && (w == [] ==> d == if n == 0 then [] else Downward(rest, src, s, n - 1, caps))
  {
  }

  lemma UpwardFirst(rest: seq<Item>, src: seq<int>, s: nat, n: nat, caps: seq<Capture>)
    ensures var d, w := Upward(rest, src, s, n, caps), Ways(rest, src, s, caps);
            && (w != [] ==> d != [] && d[0] == w[0])
            && (w == [] ==> d == if n == 0 then [] else Upward(rest, src, s + 1, n - 1, caps))
  {
  }

  // ---------------------------------------------------------------- one item

  lemma EndStep(pat: seq<int>, p: nat, src: seq<int>, s: nat, caps: seq<Capture>)
    requires At(pat, p) == 0
    ensures Answer(Ended(s), WaysAt(pat, p, src, s, caps), caps, caps)
  {
  }

  /** A sound pattern has an item at p. */
  lemma ReadItem(pat: seq<int>, p: nat, caps: seq<Capture>)
    requires At(pat, p) != 0
    ensures p < |pat|
    ensures Sound(pat, p, caps) ==> ItemAt(pat, p).Some? && |Rest(pat, p)| == 1 + |Rest(pat, ItemAt(pat, p).value.1)|
  {
    if Sound(pat, p, caps) {
      ParseStep(pat, p, caps);
    }
  }

  lemma OpenItem(pat: seq<int>, p: nat)
    requires At(pat, p) == LPAREN
    ensures var position := At(pat, p + 1) == RPAREN;
            ItemAt(pat, p) == Some((Open(position), if position then p + 2 else p + 1)) && p < |pat|
              && (position ==> p + 1 < |pat|)
  {
    hide ClassEnd;
  }

  lemma OpenWays(items: seq<Item>, src: seq<int>, s: nat, caps: seq<Capture>, position: bool)
    requires items != [] && items[0] == Open(position) && Proper(items, Shape(caps))
    ensures var c := Capture(s, if position then POSITION else UNFINISHED);
            |caps| < MAXCAPTURES && Proper(items[1..], Shape(caps + [c]))
              && Ways(items, src, s, caps) == Ways(items[1..], src, s, caps + [c])
  {
    hide Shape;
    ShapeAt(caps);
    ShapePush(caps, Capture(s, if position then POSITION else UNFINISHED));
  }

  lemma CloseItem(pat: seq<int>, p: nat)
    requires At(pat, p) == RPAREN
    ensures ItemAt(pat, p) == Some((Close, p + 1)) && p < |pat|
  {
    hide ClassEnd;
  }

  lemma CloseWays(items: seq<Item>, src: seq<int>, s: nat, caps: seq<Capture>)
    requires items != [] && items[0] == Close && Proper(items, Shape(caps)) && CapsBefore(caps, s)
    ensures var l := LastOpen(caps);
            && l >= 0 && Proper(items[1..], Shape(CloseAt(caps, l, s)))
            && Ways(items, src, s, caps) == Ways(items[1..], src, s, CloseAt(caps, l, s))
  {
    hide Shape;
    ShapeAt(caps);
    var l := LastOpen(caps);
    ShapeClose(caps, l, Capture(caps[l].init, s - caps[l].init));
  }

  lemma BackItem(pat: seq<int>, p: nat)
    requires At(pat, p) == ESC && Digit(At(pat, p + 1))
    ensures ItemAt(pat, p) == Some((Back(At(pat, p + 1)), p + 2)) && p + 2 <= |pat|
  {
    hide ClassEnd;
  }

  lemma BackWays(items: seq<Item>, src: seq<int>, s: nat, caps: seq<Capture>, d: int)
    requires items != [] && items[0] == Back(d) && Proper(items, Shape(caps))
    ensures var l := d - 49;
            && 0 <= l < |caps| && caps[l].len != UNFINISHED && Proper(items[1..], Shape(caps))
            && Ways(items, src, s, caps) ==
               if Repeats(src, s, caps[l]) then Ways(items[1..], src, s + caps[l].len, caps) else []
  {
    hide Shape, Repeats;
    ShapeAt(caps);
  }

  lemma OpenStep(pat: seq<int>, p: nat, src: seq<int>, s: nat, caps: seq<Capture>)
    requires At(pat, p) == LPAREN
    ensures var position := At(pat, p + 1) == RPAREN;
            var next, c := if position then p + 2 else p + 1, Capture(s, if position then POSITION else UNFINISHED);
            && p < next <= |pat|
            && (Sound(pat, p, caps) ==>
                  && |caps| < MAXCAPTURES && Sound(pat, next, caps + [c]) && |Rest(pat, p)| == 1 + |Rest(pat, next)|
                  && WaysAt(pat, p, src, s, caps) == WaysAt(pat, next, src, s, caps + [c]))
  {
    hide Ways, Proper, ItemAt, Parse, Shape;
    OpenItem(pat, p);
    if Sound(pat, p, caps) {
      ParseStep(pat, p, caps);
      OpenWays(Rest(pat, p), src, s, caps, At(pat, p + 1) == RPAREN);
    }
  }

  lemma CloseStep(pat: seq<int>, p: nat, src: seq<int>, s: nat, caps: seq<Capture>)
    requires At(pat, p) == RPAREN && CapsBefore(caps, s)
    ensures p < |pat|
    ensures var l := LastOpen(caps);
            Sound(pat, p, caps) ==>
              && l >= 0 && Sound(pat, p + 1, CloseAt(caps, l, s)) && |Rest(pat, p)| == 1 + |Rest(pat, p + 1)|
              && WaysAt(pat, p, src, s, caps) == WaysAt(pat, p + 1, src, s, CloseAt(caps, l, s))
  {
    hide Ways, Proper, ItemAt, Parse, Shape, CloseAt, CapsBefore;
    CloseItem(pat, p);
    if Sound(pat, p, caps) {
      ParseStep(pat, p, caps);
      CloseWays(Rest(pat, p), src, s, caps);
    }
  }

  lemma BalanceStep(pat: seq<int>, p: nat, src: seq<int>, s: nat, caps: seq<Capture>)
    requires At(pat, p) == ESC && At(pat, p + 1) == 98 && At(pat, p + 2) != 0 && At(pat, p + 3) != 0
    ensures p + 4 <= |pat|
    ensures var t := Balanced(src, s, At(pat, p + 2), At(pat, p + 3));
            Sound(pat, p, caps) ==>
              && Sound(pat, p + 4, caps) && |Rest(pat, p)| == 1 + |Rest(pat, p + 4)|
              && WaysAt(pat, p, src, s, caps) == if t.None? then [] else WaysAt(pat, p + 4, src, t.value, caps)
  {
    if Sound(pat, p, caps) {
      ParseStep(pat, p, caps);
    }
  }

  lemma BalancedLater(src: seq<int>, s: nat, b: int, e: int)
    requires s <= |src|
    ensures Balanced(src, s, b, e).Some? ==> s < Balanced(src, s, b, e).value <= |src|
  {
    BalancedInside(src, s + 1, b, e, 1);
  }

  lemma FrontierStep(pat: seq<int>, p: nat, src: seq<int>, s: nat, caps: seq<Capture>)
    requires At(pat, p) == ESC && At(pat, p + 1) == 102 && At(pat, p + 2) == LBRACKET && ClassEnd(pat, p + 2).Some?
    ensures ClassEnd(pat, p + 2).value > 0
    ensures var ep := ClassEnd(pat, p + 2).value;
            && p < ep <= |pat|
            && (Sound(pat, p, caps) ==>
                  && Sound(pat, ep, caps) && |Rest(pat, p)| == 1 + |Rest(pat, ep)|
                  && WaysAt(pat, p, src, s, caps)
                  == if FrontierAt(src, s, SetAt(pat, p + 2, ep - 1)) then WaysAt(pat, ep, src, s, caps) else [])
  {
    ClassInside(pat, p + 2);
    if Sound(pat, p, caps) {
      ParseStep(pat, p, caps);
    }
  }

  lemma FrontierIs(src: seq<int>, s: nat, cl: Class, before: bool, after: bool)
    requires before == Member(cl, if s == 0 then 0 else At(src, s - 1)) && after == Member(cl, At(src, s))
    ensures FrontierAt(src, s, cl) <==> !before && after
  {
    hide Member;
  }

  lemma BackStep(pat: seq<int>, p: nat, src: seq<int>, s: nat, caps: seq<Capture>)
    requires At(pat, p) == ESC && Digit(At(pat, p + 1))
    ensures p + 2 <= |pat|
    ensures var l := At(pat, p + 1) - 49;
            Sound(pat, p, caps) ==>
              && 0 <= l < |caps| && caps[l].len != UNFINISHED && Sound(pat, p + 2, caps)
              && |Rest(pat, p)| == 1 + |Rest(pat, p + 2)|
              && WaysAt(pat, p, src, s, caps)
              == if Repeats(src, s, caps[l]) then WaysAt(pat, p + 2, src, s + caps[l].len, caps) else []
  {
    hide Ways, Proper, ItemAt, Parse, Shape, Repeats;
    BackItem(pat, p);
    if Sound(pat, p, caps) {
      ParseStep(pat, p, caps);
      BackWays(Rest(pat, p), src, s, caps, At(pat, p + 1));
    }
  }

  lemma BackLater(src: seq<int>, s: nat, caps: seq<Capture>, d: int)
    requires 0 <= d - 49 < |caps|
    ensures Repeats(src, s, caps[d - 49]) ==> s <= s + caps[d - 49].len <= |src|
  {
  }

  lemma AtEndStep(pat: seq<int>, p: nat, src: seq<int>, s: nat, caps: seq<Capture>)
    requires At(pat, p) == DOLLAR && At(pat, p + 1) == 0
    ensures Sound(pat, p, caps) ==>
            Answer(if s == |src| then Ended(s) else Fail, WaysAt(pat, p, src, s, caps), caps, caps)
  {
    if Sound(pat, p, caps) {
      ParseStep(pat, p, caps);
      assert Rest(pat, p + 1) == [] && Ways([], src, s, caps) == [Way(s, caps)];
    }
  }

  /** The class at p and the quantifier after it. */
  lemma RepStep(pat: seq<int>, p: nat, src: seq<int>, s: nat, caps: seq<Capture>, ep: nat)
    requires At(pat, p) != 0 && At(pat, p) != LPAREN && At(pat, p) != RPAREN && ClassEnd(pat, p) == Some(ep)
    requires !(At(pat, p) == ESC && (At(pat, p + 1) == 98 || At(pat, p + 1) == 102 || Digit(At(pat, p + 1))))
    requires !(At(pat, p) == DOLLAR && At(pat, p + 1) == 0)
    ensures p < ep <= |pat|
    ensures var q := At(pat, ep);
            var quantified := q == QUEST || q == STAR || q == PLUS || q == MINUS;
            var next, cl := if quantified then ep + 1 else ep, ClassAt(pat, p, ep);
            var n, rest := RunLength(src, s, cl), Rest(pat, next);
            && next <= |pat|
            && (Sound(pat, p, caps) ==>
                  && Sound(pat, next, caps) && |Rest(pat, p)| == 1 + |rest|
                  && WaysAt(pat, p, src, s, caps)
                  == if q == QUEST then (if n > 0 then Ways(rest, src, s + 1, caps) else []) + Ways(rest, src, s, caps)
                     else if q == STAR then Downward(rest, src, s, n, caps)
                     else if q == PLUS then (if n > 0 then Downward(rest, src, s + 1, n - 1, caps) else [])
                     else if q == MINUS then Upward(rest, src, s, n, caps)
                     else if n > 0 then Ways(rest, src, s + 1, caps) else [])
  {
    hide ClassEnd, ClassAt, Ways, ItemAt, Parse, Sound, Proper, Member, RunLength, Downward, Upward;
    ClassInside(pat, p);
    RepItem(pat, p, ep);
    if Sound(pat, p, caps) {
      ParseStep(pat, p, caps);
      RepUnfold(pat, p, src, s, caps);
    }
  }

  /** A malformed item makes the pattern unsound. */
  lemma BadItem(pat: seq<int>, p: nat, caps: seq<Capture>)
    requires At(pat, p) != 0
    requires var c, d := At(pat, p), At(pat, p + 1);
             if c == ESC && d == 98 then At(pat, p + 2) == 0 || At(pat, p + 3) == 0
             else if c == ESC && d == 102 then At(pat, p + 2) != LBRACKET || ClassEnd(pat, p + 2).None?
             else
               && c != LPAREN && c != RPAREN && !(c == ESC && Digit(d)) && !(c == DOLLAR && d == 0)
               && ClassEnd(pat, p).None?
    ensures !Sound(pat, p, caps)
  {
    hide ClassEnd, ClassAt;
  }

  lemma RepItem(pat: seq<int>, p: nat, ep: nat)
    requires At(pat, p) != 0 && At(pat, p) != LPAREN && At(pat, p) != RPAREN && ClassEnd(pat, p) == Some(ep) && ep > p
    requires !(At(pat, p) == ESC && (At(pat, p + 1) == 98 || At(pat, p + 1) == 102 || Digit(At(pat, p + 1))))
    requires !(At(pat, p) == DOLLAR && At(pat, p + 1) == 0)
    ensures var cl, q := ClassAt(pat, p, ep), At(pat, ep);
            ItemAt(pat, p)
            == if q == QUEST then Some((Rep(cl, Optional), ep + 1))
              else if q == STAR then Some((Rep(cl, Greedy), ep + 1))
               else if q == PLUS then Some((Rep(cl, GreedyPlus), ep + 1))
                 else if q == MINUS then Some((Rep(cl, Lazy), ep + 1))
               else Some((Rep(cl, Once), ep))
  {
    hide ClassAt, ClassEnd;
  }

  lemma RepUnfold(pat: seq<int>, p: nat, src: seq<int>, s: nat, caps: seq<Capture>)
    requires At(pat, p) != 0 && Sound(pat, p, caps) && ItemAt(pat, p).Some? && ItemAt(pat, p).value.0.Rep?
    ensures var (item, next) := ItemAt(pat, p).value;
            var n, rest := RunLength(src, s, item.cl), Rest(pat, next);
            && Sound(pat, next, caps) && |Rest(pat, p)| == 1 + |rest|
            && WaysAt(pat, p, src, s, caps)
            == match item.q
               case Once => if n > 0 then Ways(rest, src, s + 1, caps) else []
               case Optional => (if n > 0 then Ways(rest, src, s + 1, caps) else []) + Ways(rest, src, s, caps)
               case Greedy => Downward(rest, src, s, n, caps)
               case GreedyPlus => if n > 0 then Downward(rest, src, s + 1, n - 1, caps) else []
               case Lazy => Upward(rest, src, s, n, caps)
  {
    hide ItemAt, RunLength, Downward, Upward, Shape, Parse;
    ParseStep(pat, p, caps);
  }

  lemma RestWays(pat: seq<int>, p: nat, src: seq<int>, s: nat, caps: seq<Capture>)
    ensures Sound(pat, p, caps) ==> WaysAt(pat, p, src, s, caps) == Ways(Rest(pat, p), src, s, caps)
  {
  }

  lemma RunStart(src: seq<int>, s: nat, cl: Class, m: bool)
    requires s <= |src| && m == (s < |src| && Member(cl, src[s]))
    ensures var n := RunLength(src, s, cl); (n > 0 <==> m) && (m ==> RunLength(src, s + 1, cl) == n - 1)
  {
    hide Member;
  }

  lemma OptionalTaken(pat: seq<int>, src: seq<int>, s: nat, caps: seq<Capture>, ep: nat, r: Outcome,
                      after: seq<Capture>)
    ensures var a, b := WaysAt(pat, ep + 1, src, s + 1, caps), WaysAt(pat, ep + 1, src, s, caps);
            Answer(r, a, caps, after) ==> (r != Fail ==> Answer(r, a + b, caps, after)) && (r == Fail ==> a + b == b)
  {
  }

  lemma BackError(pat: seq<int>, p: nat, src: seq<int>, s: nat, caps: seq<Capture>)
    requires At(pat, p) == ESC && Digit(At(pat, p + 1))
    ensures var l := At(pat, p + 1) - 49; !(0 <= l < |caps|) || caps[l].len == UNFINISHED ==> !Sound(pat, p, caps)
  {
    BackStep(pat, p, src, s, caps);
  }

  // ---------------------------------------------------------------- what an answer means

  /** The outcome is a match exactly when there is one. */
  lemma FirstMatches(items: seq<Item>, src: seq<int>, s: nat, r: Outcome, after: seq<Capture>)
    requires s <= |src|
    ensures Answer(r, Ways(items, src, s, []), [], after) ==>
              && (r.Ended? ==>
                   Matches(items, src, s, [], Way(r.end, after)) && Chosen(items, src, s, [], Way(r.end, after)))
              && (r.Fail? ==> forall way :: !Matches(items, src, s, [], way))
  {
    hide Ways, Matches, Chosen;
    var ways := Ways(items, src, s, []);
    forall way ensures way in ways <==> Matches(items, src, s, [], way) {
      WaysAreMatches(items, src, s, [], way);
    }
    if ways != [] {
      assert ways[0] in ways;
      FirstIsChosen(items, src, s, [], ways[0]);
    }
  }

  /** A match ends at or after its start. */
  lemma {:induction false} WaysLater(items: seq<Item>, src: seq<int>, s: nat, caps: seq<Capture>, way: Way)
    requires s <= |src| && way in Ways(items, src, s, caps)
    ensures s <= way.end <= |src|
  {
    WaysAreMatches(items, src, s, caps, way);
    MatchesLater(items, src, s, caps, way);
  }

  lemma {:induction false} MatchesLater(items: seq<Item>, src: seq<int>, s: nat, caps: seq<Capture>, way: Way)
    requires s <= |src| && Matches(items, src, s, caps, way)
    ensures s <= way.end <= |src|
    decreases |items|
  {
    if items != [] {
      var rest := items[1..];
      match items[0]
      case Open(position) => MatchesLater(rest, src, s,
                                          caps + [Capture(s, if position then POSITION else UNFINISHED)], way);
      case Close =>
        var l: nat :| Innermost(caps, l)
                      && Matches(rest, src, s, caps[l := Capture(caps[l].init, s - caps[l].init)], way);
        MatchesLater(rest, src, s, caps[l := Capture(caps[l].init, s - caps[l].init)], way);
      case Balance(b, e) =>
        var t: nat :| BalancedTo(src, s, b, e, t) && Matches(rest, src, t, caps, way);
        MatchesLater(rest, src, t, caps, way);
      case Frontier(cl) => MatchesLater(rest, src, s, caps, way);
      case Back(d) => MatchesLater(rest, src, s + caps[d - 49].len, caps, way);
      case AtEnd => MatchesLater(rest, src, s, caps, way);
      case Rep(cl, q) =>
        var e: nat :| AllIn(src, s, e, cl) && Allowed(q, e - s) && Matches(rest, src, e, caps, way);
        MatchesLater(rest, src, e, caps, way);
    }
  }

  lemma EndLater(pat: seq<int>, p: nat, src: seq<int>, s: nat, r: Outcome, after: seq<Capture>)
    requires s <= |src|
    ensures Sound(pat, p, []) && Answer(r, WaysAt(pat, p, src, s, []), [], after) && r.Ended? ==> s <= r.end <= |src|
  {
    if r.Ended? && Sound(pat, p, []) && Answer(r, WaysAt(pat, p, src, s, []), [], after) {
      var ways := WaysAt(pat, p, src, s, []);
      assert ways[0] in ways;
      WaysLater(Rest(pat, p), src, s, [], ways[0]);
    }
  }
}

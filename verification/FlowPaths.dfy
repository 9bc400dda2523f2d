/** When a generated function can fall off its closing brace: exactly if its control-flow graph has a path to
    the end. */
module FlowPaths {
  import opened Wrappers
  import opened RecompiledCode
  import opened StumpRepair
  import opened EntryRepair
  import opened Recompiler
  import opened RepairedProgram
  import opened FlowGraph

  function Started(p: Program, fn: Name): CState
    requires fn in p
  {
    At(fn, p[fn], [], [])
  }

  ghost predicate FallsAt(p: Program, cond: seq<nat> -> bool, s: CState, fn: Name, k: nat) {
    CRun(p, cond, s, k).Fell? && CRun(p, cond, s, k).fn == fn
  }

  /** Under some branch outcomes, a call of fn makes it run off its closing brace. */
  ghost predicate CanFall(p: Program, fn: Name)
    requires fn in p
  {
    exists cond, k: nat :: FallsAt(p, cond, Started(p, fn), fn, k)
  }

  /** The body of f as the scripts leave it, with nothing chained to it. */
  ghost predicate Unchained(code: Code, p: Program, f: Fn, half: bool) {
    WellDecoded(code, f) && f.name in p && p[f.name] == LinesOf(code, f, 0, half, [])
  }

  function Bare(code: Code, p: Program, cond: seq<nat> -> bool): World {
    World(code, {}, p, map[], cond)
  }

  // ---------------------------------------------------------------- calls from the inside and from the outside

  /** The same state with one more caller, the last to be returned to. */
  function Pushed(s: CState, frame: Frame): CState
    requires s.At?
  {
    s.(stack := s.stack + [frame])
  }

  /** A run with no caller, seen by a caller: the same until it returns. */
  lemma {:induction false} PushedRun(p: Program, cond: seq<nat> -> bool, s: CState, frame: Frame, k: nat)
    returns (m: nat)
    requires s.At?
    ensures m <= k
    ensures var u := CRun(p, cond, s, k);
            CRun(p, cond, Pushed(s, frame), m) ==
              if u.At? then Pushed(u, frame) else if u.Done? then At(frame.fn, frame.rest, [], u.trace) else u
    ensures !CRun(p, cond, s, k).Done? ==> m == k
  {
    if k == 0 {
      m := 0;
    } else {
      m := PushedRun(p, cond, s, frame, k - 1);
      var u := CRun(p, cond, s, k - 1);
      if u.At? {
        PushedStep(p, cond, u, frame);
        m := k;
      } else if !u.Done? {
        m := k;
      }
    }
  }

  lemma PushedStep(p: Program, cond: seq<nat> -> bool, u: CState, frame: Frame)
    requires u.At?
    ensures var v := CStep(p, cond, u);
            CStep(p, cond, Pushed(u, frame)) ==
              if v.At? then Pushed(v, frame) else if v.Done? then At(frame.fn, frame.rest, [], v.trace) else v
  {
    var z := u.stack + [frame];
    if u.stack == [] {
      assert z[1..] == [];
    } else {
      assert z[1..] == u.stack[1..] + [frame];
    }
    if u.rest != [] && u.rest[0].CallTo? {
      assert [Frame(u.fn, u.rest[1..])] + z == ([Frame(u.fn, u.rest[1..])] + u.stack) + [frame];
    }
  }

  /** Outcomes that follow cond1 as it went after h1, from h2 on. */
  function Spliced(cond: seq<nat> -> bool, h2: seq<nat>, cond1: seq<nat> -> bool, h1: seq<nat>): seq<nat> -> bool {
    t => if h2 <= t then cond1(h1 + t[|h2|..]) else cond(t)
  }

  function Moved(s: CState, h1: seq<nat>, h2: seq<nat>): CState
    requires h1 <= s.trace
  {
    s.(trace := h2 + s.trace[|h1|..])
  }

  lemma MovedStep(p: Program, cond: seq<nat> -> bool, h2: seq<nat>, cond1: seq<nat> -> bool, h1: seq<nat>, u: CState)
    requires h1 <= u.trace
    ensures h1 <= CStep(p, cond1, u).trace
    ensures CStep(p, Spliced(cond, h2, cond1, h1), Moved(u, h1, h2)) == Moved(CStep(p, cond1, u), h1, h2)
  {
    var t := h2 + u.trace[|h1|..];
    assert h2 <= t && t[|h2|..] == u.trace[|h1|..] && h1 + t[|h2|..] == u.trace;
    if u.At? && u.rest != [] && u.rest[0].Insn? {
      assert (u.trace + [u.rest[0].addr])[|h1|..] == u.trace[|h1|..] + [u.rest[0].addr];
    }
  }

  lemma {:induction false} MovedRun(p: Program, cond: seq<nat> -> bool, h2: seq<nat>, cond1: seq<nat> -> bool,
          h1: seq<nat>, s: CState, k: nat)
    requires h1 <= s.trace
    ensures h1 <= CRun(p, cond1, s, k).trace
    ensures CRun(p, Spliced(cond, h2, cond1, h1), Moved(s, h1, h2), k) == Moved(CRun(p, cond1, s, k), h1, h2)
  {
    if k > 0 {
      MovedRun(p, cond, h2, cond1, h1, s, k - 1);
      MovedStep(p, cond, h2, cond1, h1, CRun(p, cond1, s, k - 1));
    }
  }

  /** A function that can return does so to this caller and after these visits, too. */
  lemma CalleeReturns(p: Program, cond: seq<nat> -> bool, name: Name, h: seq<nat>, frame: Frame)
    returns (outcomes: seq<nat> -> bool, k: nat, h': seq<nat>)
    requires name in p && CanReturn(p, name)
    ensures forall t :: |t| < |h| ==> outcomes(t) == cond(t)
    ensures CRun(p, outcomes, At(name, p[name], [frame], h), k) == At(frame.fn, frame.rest, [], h')
  {
    var cond1, h1, k1: nat :| ReturnsAt(p, cond1, name, h1, k1);
    var s := At(name, p[name], [], h1);
    outcomes := Spliced(cond, h, cond1, h1);
    MovedRun(p, cond, h, cond1, h1, s, k1);
    assert Moved(s, h1, h) == At(name, p[name], [], h) by {
      assert h + h1[|h1|..] == h;
    }
    assert Pushed(Moved(s, h1, h), frame) == At(name, p[name], [frame], h) by {
      assert [] + [frame] == [frame];
    }
    k := PushedRun(p, outcomes, Moved(s, h1, h), frame, k1);
    h' := CRun(p, outcomes, Moved(s, h1, h), k1).trace;
  }

  // ---------------------------------------------------------------- a path is a run

  /** Outcomes that agree up to n visits run alike as long as no more are made. */
  lemma {:induction false} RunsAlike(p: Program, cond: seq<nat> -> bool, cond': seq<nat> -> bool, n: nat, s: CState,
          k: nat)
    requires |CRun(p, cond, s, k).trace| <= n
    requires forall t :: |t| <= n ==> cond'(t) == cond(t)
    ensures CRun(p, cond', s, k) == CRun(p, cond, s, k)
  {
    if k > 0 {
      var before := CRun(p, cond, s, k - 1);
      CRunTraceGrows(p, cond, before, 1);
      assert CRun(p, cond, before, 1) == CStep(p, cond, CRun(p, cond, before, 0));
      RunsAlike(p, cond, cond', n, s, k - 1);
    }
  }

  /** With these outcomes a call of f is at instruction i after k steps. */
  ghost predicate Arrives(code: Code, p: Program, cond: seq<nat> -> bool, f: Fn, half: bool, i: nat, h: seq<nat>,
          k: nat)
    requires f.name in p && |f.stray| == f.count && i <= f.count
  {
    CRun(p, cond, Started(p, f.name), k) == At(f.name, Node(code, f, i, half, []), [], h)
  }

  lemma ArrivesOn(w: World, cond: seq<nat> -> bool, f: Fn, half: bool, i: nat, h: seq<nat>, k: nat, x: nat,
          h': seq<nat>, m: nat)
    requires f.name in w.p && |f.stray| == f.count && i <= f.count && x <= f.count
    requires Arrives(w.code, w.p, cond, f, half, i, h, k) && forall t :: |t| <= |h| ==> w.cond(t) == cond(t)
    requires Goes(w, AtNode(w.code, f, i, half, [], [], h), AtNode(w.code, f, x, half, [], [], h'), m)
    ensures Arrives(w.code, w.p, w.cond, f, half, x, h', k + m)
  {
    RunsAlike(w.p, cond, w.cond, |h|, Started(w.p, f.name), k);
    GoesIsRun(w, AtNode(w.code, f, i, half, [], [], h), AtNode(w.code, f, x, half, [], [], h'), m);
    CRunAppend(w.p, w.cond, Started(w.p, f.name), k, m);
  }

  function Then(cond: seq<nat> -> bool, n: nat, b: bool): seq<nat> -> bool {
    t => if |t| <= n then cond(t) else b
  }

  lemma EdgeRuns(code: Code, p: Program, cond: seq<nat> -> bool, f: Fn, half: bool, i: nat, h: seq<nat>, k: nat, x: nat)
    returns (cond': seq<nat> -> bool, h': seq<nat>, k': nat)
    requires Unchained(code, p, f, half) && i <= f.count && Arrives(code, p, cond, f, half, i, h, k)
    requires Edge(code, p, f, half, i, x)
    ensures x <= f.count && Arrives(code, p, cond', f, half, x, h', k')
  {
    if code(Addr(f, i)).Call? {
      cond', h', k' := CallRuns(code, p, cond, f, half, i, h, k);
    } else {
      cond', h', k' := LocalRuns(code, p, cond, f, half, i, h, k, x);
    }
  }

  predicate TakesTo(code: Code, f: Fn, half: bool, i: nat, x: nat)
    requires f.count > 0
  {
    var t := TargetOf(code(Addr(f, i)));
    t.Some? && Window(f, t.value) && Lands(f, t.value, half, x)
  }

  lemma StepAlong(w: World, f: Fn, half: bool, i: nat, h: seq<nat>, x: nat) returns (m: nat, h': seq<nat>)
    requires Laid(w, f, half, []) && i < f.count
    requires Edge(w.code, w.p, f, half, i, x) && !w.code(Addr(f, i)).Call?
    requires w.cond(h + [Addr(f, i)]) == TakesTo(w.code, f, half, i, x)
    ensures x <= f.count && Goes(w, AtNode(w.code, f, i, half, [], [], h), AtNode(w.code, f, x, half, [], [], h'), m)
  {
    if TakesTo(w.code, f, half, i, x) {
      h' := h + [Addr(f, i), Addr(f, i) + 4];
      m := TakenLands(w, f, i, w.code(Addr(f, i)).target, x, half, [], [], h);
    } else {
      h' := h + [Addr(f, i)];
      m := StraightAlong(w, f, half, i, h, x);
    }
  }

  lemma StraightAlong(w: World, f: Fn, half: bool, i: nat, h: seq<nat>, x: nat) returns (m: nat)
    requires Laid(w, f, half, []) && i < f.count && !TakesTo(w.code, f, half, i, x)
    requires Edge(w.code, w.p, f, half, i, x) && !w.code(Addr(f, i)).Call? && !w.cond(h + [Addr(f, i)])
    ensures x <= f.count
    ensures Goes(w, AtNode(w.code, f, i, half, [], [], h), AtNode(w.code, f, x, half, [], [], h + [Addr(f, i)]), m)
  {
    if w.code(Addr(f, i)).Plain? {
      m := PlainGoes(w, f, i, half, [], [], h);
    } else {
      m := UntakenGoes(w, f, i, w.code(Addr(f, i)).target, half, [], [], h);
    }
  }

  lemma LocalRuns(code: Code, p: Program, cond: seq<nat> -> bool, f: Fn, half: bool, i: nat, h: seq<nat>, k: nat,
          x: nat)
    returns (cond': seq<nat> -> bool, h': seq<nat>, k': nat)
    requires Unchained(code, p, f, half) && i < f.count && Arrives(code, p, cond, f, half, i, h, k)
    requires Edge(code, p, f, half, i, x) && !code(Addr(f, i)).Call?
    ensures x <= f.count && Arrives(code, p, cond', f, half, x, h', k')
  {
    hide Node, LinesOf, Edge, TakesTo;
    cond' := Then(cond, |h|, TakesTo(code, f, half, i, x));
    var m;
    m, h' := StepAlong(Bare(code, p, cond'), f, half, i, h, x);
    ArrivesOn(Bare(code, p, cond'), cond, f, half, i, h, k, x, h', m);
    k' := k + m;
  }

  lemma CallRuns(code: Code, p: Program, cond: seq<nat> -> bool, f: Fn, half: bool, i: nat, h: seq<nat>, k: nat)
    returns (cond': seq<nat> -> bool, h': seq<nat>, k': nat)
    requires Unchained(code, p, f, half) && i < f.count && Arrives(code, p, cond, f, half, i, h, k)
    requires code(Addr(f, i)).Call? && CanReturn(p, code(Addr(f, i)).name)
    ensures i + 2 <= f.count && Arrives(code, p, cond', f, half, i + 2, h', k')
  {
    hide Node, LinesOf, RestOf;
    var l;
    cond', l, h' := CalleeComesBack(code, p, cond, f, half, i, h);
    var m := CallComesBack(Bare(code, p, cond'), f, i, half, h, l, h');
    ArrivesOn(Bare(code, p, cond'), cond, f, half, i, h, k, i + 2, h', m);
    k' := k + m;
  }

  lemma CalleeComesBack(code: Code, p: Program, cond: seq<nat> -> bool, f: Fn, half: bool, i: nat, h: seq<nat>)
    returns (cond': seq<nat> -> bool, l: nat, h': seq<nat>)
    requires |f.stray| == f.count && i < f.count
    requires code(Addr(f, i)).Call? && CanReturn(p, code(Addr(f, i)).name)
    ensures forall t :: |t| <= |h| ==> cond'(t) == cond(t)
    ensures CalleeReturned(Bare(code, p, cond'), f, i, half, h, l, h')
  {
    var name, h2 := code(Addr(f, i)).name, h + [Addr(f, i), Addr(f, i) + 4];
    cond', l, h' := cond, 0, h2;
    if name in p {
      var frame := Frame(f.name, CallRest(code, f, i, half, []));
      cond', l, h' := CalleeReturns(p, cond, name, h2, frame);
    }
  }

  /** The function called at instruction i has returned, l steps after it was entered; one outside the program
      at once. */
  ghost predicate CalleeReturned(w: World, f: Fn, i: nat, half: bool, h: seq<nat>, l: nat, h': seq<nat>)
    requires |f.stray| == f.count && i < f.count && w.code(Addr(f, i)).Call?
  {
    var name, h2 := w.code(Addr(f, i)).name, h + [Addr(f, i), Addr(f, i) + 4];
    var frame := Frame(f.name, CallRest(w.code, f, i, half, []));
    if name in w.p then CRun(w.p, w.cond, At(name, w.p[name], [frame], h2), l) == At(f.name, frame.rest, [], h')
    else l == 0 && h' == h2
  }

  /** Where the call line at instruction i leads. */
  ghost function Called(w: World, f: Fn, i: nat, half: bool, h2: seq<nat>): CState
    requires |f.stray| == f.count && i < f.count && w.code(Addr(f, i)).Call?
  {
    var name, r := w.code(Addr(f, i)).name, CallRest(w.code, f, i, half, []);
    if name in w.p then At(name, w.p[name], [Frame(f.name, r)], h2) else At(f.name, r, [], h2)
  }

  lemma CallEntersCallee(w: World, f: Fn, i: nat, half: bool, h: seq<nat>)
    requires |f.stray| == f.count && i < f.count && w.code(Addr(f, i)).Call?
    ensures Goes(w, AtNode(w.code, f, i, half, [], [], h), Called(w, f, i, half, h + [Addr(f, i), Addr(f, i) + 4]), 3)
  {
    var name, h2, r := w.code(Addr(f, i)).name, h + [Addr(f, i), Addr(f, i) + 4], CallRest(w.code, f, i, half, []);
    var c := At(f.name, [CallTo(name)] + r, [], h2);
    CallGoes(w, f, i, half, [], [], h);
    assert c.rest[1..] == r;
    assert [Frame(f.name, r)] + [] == [Frame(f.name, r)];
    GoesOnce(w, c, Called(w, f, i, half, h2));
    GoesOn(w, AtNode(w.code, f, i, half, [], [], h), c, Called(w, f, i, half, h2), 2, 1);
  }

  lemma CallComesBack(w: World, f: Fn, i: nat, half: bool, h: seq<nat>, l: nat, h': seq<nat>) returns (m: nat)
    requires Laid(w, f, half, []) && i < f.count && w.code(Addr(f, i)).Call?
    requires CalleeReturned(w, f, i, half, h, l, h')
    ensures i + 2 <= f.count
    ensures Goes(w, AtNode(w.code, f, i, half, [], [], h), AtNode(w.code, f, i + 2, half, [], [], h'), m)
  {
    hide Node, LinesOf, RestOf, CRun, Goes;
    var s, d := AtNode(w.code, f, i, half, [], [], h), Called(w, f, i, half, h + [Addr(f, i), Addr(f, i) + 4]);
    var b := At(f.name, CallRest(w.code, f, i, half, []), [], h');
    CallEntersCallee(w, f, i, half, h);
    GoesIsRun(w, d, b, l);
    GoesOn(w, s, d, b, 3, l);
    var j := LinkComesTo(w, f, i, half, [], RestOf(w.code, f, i, half, []), [], h');
    GoesOn(w, s, b, AtNode(w.code, f, i + 2, half, [], [], h'), 3 + l, j);
    m := 3 + l + j;
  }

  lemma {:induction false} PathRuns(code: Code, p: Program, f: Fn, half: bool, path: seq<nat>)
    returns (cond: seq<nat> -> bool, h: seq<nat>, k: nat)
    requires Unchained(code, p, f, half) && Path(code, p, f, half, path)
    ensures path[|path| - 1] <= f.count && Arrives(code, p, cond, f, half, path[|path| - 1], h, k)
    decreases |path|
  {
    if |path| == 1 {
      cond, h := _ => false, [];
      var w := Bare(code, p, cond);
      k := ComesTo(w, f, [], 0, half, [], [], []);
      assert [] + LinesOf(code, f, 0, half, []) == LinesOf(code, f, 0, half, []);
      GoesIsRun(w, Started(p, f.name), AtNode(w.code, f, 0, half, [], [], []), k);
    } else {
      var front, i := path[..|path| - 1], path[|path| - 2];
      assert forall l :: 0 <= l < |front| - 1 ==> Edge(code, p, f, half, front[l], front[l + 1]);
      var cond0, h0, k0 := PathRuns(code, p, f, half, front);
      assert Edge(code, p, f, half, path[|path| - 2], path[|path| - 2 + 1]);
      cond, h, k := EdgeRuns(code, p, cond0, f, half, i, h0, k0, path[|path| - 1]);
    }
  }

  lemma ReachedEndFalls(code: Code, p: Program, f: Fn, half: bool)
    requires Unchained(code, p, f, half) && Reachable(code, p, f, half, f.count)
    ensures CanFall(p, f.name)
  {
    var path :| Path(code, p, f, half, path) && path[|path| - 1] == f.count;
    var cond, h, k := PathRuns(code, p, f, half, path);
    assert FallsAt(p, cond, Started(p, f.name), f.name, k + 1);
  }

  // ---------------------------------------------------------------- a run is a path

  /** A run that falls goes through every state on its way. */
  lemma StillFalls(w: World, s: CState, t: CState, m: nat, fn: Name, k: nat)
    requires Goes(w, s, t, m) && t.At? && FallsAt(w.p, w.cond, s, fn, k)
    ensures m <= k && FallsAt(w.p, w.cond, t, fn, k - m)
  {
    GoesIsRun(w, s, t, m);
    if m <= k {
      CRunAppend(w.p, w.cond, s, m, k - m);
    } else {
      CRunAppend(w.p, w.cond, s, k, m - k);
      CRunTerminal(w.p, w.cond, CRun(w.p, w.cond, s, k), m - k);
    }
  }

  lemma NeverFalls(w: World, s: CState, t: CState, m: nat, fn: Name, k: nat)
    requires Goes(w, s, t, m) && (t.Done? || t.Stuck?)
    ensures !FallsAt(w.p, w.cond, s, fn, k)
  {
    GoesIsRun(w, s, t, m);
    if m <= k {
      CRunAppend(w.p, w.cond, s, m, k - m);
      CRunTerminal(w.p, w.cond, t, k - m);
    } else if FallsAt(w.p, w.cond, s, fn, k) {
      CRunAppend(w.p, w.cond, s, k, m - k);
      CRunTerminal(w.p, w.cond, CRun(w.p, w.cond, s, k), m - k);
    }
  }

  /** A call that falls does so inside or after it has come back. */
  lemma CallFalls(w: World, name: Name, frame: Frame, h: seq<nat>, fn: Name, k: nat) returns (m: nat, h': seq<nat>)
    requires name in w.p && FallsAt(w.p, w.cond, At(name, w.p[name], [frame], h), fn, k)
    ensures || FallsAt(w.p, w.cond, At(name, w.p[name], [], h), fn, k)
            || (CanReturn(w.p, name) && m <= k && FallsAt(w.p, w.cond, At(frame.fn, frame.rest, [], h'), fn, k - m))
  {
    var s, u := At(name, w.p[name], [], h), CRun(w.p, w.cond, At(name, w.p[name], [], h), k);
    assert Pushed(s, frame) == At(name, w.p[name], [frame], h) by {
      assert [] + [frame] == [frame];
    }
    m := PushedRun(w.p, w.cond, s, frame, k);
    h' := u.trace;
    if u.Done? {
      assert ReturnsAt(w.p, w.cond, name, h, k);
      CRunAppend(w.p, w.cond, Pushed(s, frame), m, k - m);
    }
  }

  lemma StartFalls(w: World, f: Fn, half: bool, h: seq<nat>, k: nat) returns (m: nat)
    requires Laid(w, f, half, []) && FallsAt(w.p, w.cond, At(f.name, w.p[f.name], [], h), f.name, k)
    ensures m <= k && FallsAt(w.p, w.cond, AtNode(w.code, f, 0, half, [], [], h), f.name, k - m)
  {
    hide Node, Front, Back, CRun, Half, Fixed;
    var e := LinesOf(w.code, f, 0, half, []);
    m := ComesTo(w, f, [], 0, half, [], [], h);
    assert [] + e == e;
    StillFalls(w, At(f.name, e, [], h), AtNode(w.code, f, 0, half, [], [], h), m, f.name, k);
  }

  /** From the start of any function on. */
  lemma EnteredFalls(w: World, f: Fn, half: bool, name: Name, h: seq<nat>, k: nat)
    requires Laid(w, f, half, []) && name in w.p && FallsAt(w.p, w.cond, At(name, w.p[name], [], h), f.name, k)
    ensures Reachable(w.code, w.p, f, half, f.count)
    decreases k, 1
  {
    hide Node, LinesOf, Reachable;
    var s := At(name, w.p[name], [], h);
    if name == f.name {
      var m := StartFalls(w, f, half, h, k);
      EntryReachable(w.code, w.p, f, half);
      NodeFalls(w, f, half, 0, h, k - m);
    } else {
      OtherFalls(w, f, half, s, k);
    }
  }

  /** From anywhere in another function, with nobody to return to. */
  lemma OtherFalls(w: World, f: Fn, half: bool, s: CState, k: nat)
    requires Laid(w, f, half, []) && s.At? && s.fn != f.name && s.stack == []
    requires FallsAt(w.p, w.cond, s, f.name, k)
    ensures Reachable(w.code, w.p, f, half, f.count)
    decreases k, 0
  {
    var t := CStep(w.p, w.cond, s);
    GoesOnce(w, s, t);
    if !t.At? {
      GoesIsRun(w, s, t, 1);
      OtherEnds(w, f, s, k);
    } else {
      StillFalls(w, s, t, 1, f.name, k);
      if s.rest[0].CallTo? && s.rest[0].callee in w.p {
        var frame := Frame(s.fn, s.rest[1..]);
        assert [frame] + [] == [frame];
        var m, h' := CallFalls(w, s.rest[0].callee, frame, s.trace, f.name, k - 1);
        if FallsAt(w.p, w.cond, At(s.rest[0].callee, w.p[s.rest[0].callee], [], s.trace), f.name, k - 1) {
          EnteredFalls(w, f, half, s.rest[0].callee, s.trace, k - 1);
        } else {
          OtherFalls(w, f, half, At(s.fn, s.rest[1..], [], h'), k - 1 - m);
        }
      } else if s.rest[0].TailCall? || s.rest[0].ChainReturn? {
        EnteredFalls(w, f, half, s.rest[0].callee, s.trace, k - 1);
      } else {
        OtherFalls(w, f, half, t, k - 1);
      }
    }
  }

  lemma OtherEnds(w: World, f: Fn, s: CState, k: nat)
    requires s.At? && s.fn != f.name && !CStep(w.p, w.cond, s).At?
    ensures !FallsAt(w.p, w.cond, s, f.name, k)
  {
    var t := CStep(w.p, w.cond, s);
    if k > 0 {
      GoesOnce(w, s, t);
      GoesIsRun(w, s, t, 1);
      CRunAppend(w.p, w.cond, s, 1, k - 1);
      CRunTerminal(w.p, w.cond, t, k - 1);
    }
  }

  /** From instruction i of f itself. */
  lemma NodeFalls(w: World, f: Fn, half: bool, i: nat, h: seq<nat>, k: nat)
    requires Laid(w, f, half, []) && i <= f.count && Reachable(w.code, w.p, f, half, i)
    requires FallsAt(w.p, w.cond, AtNode(w.code, f, i, half, [], [], h), f.name, k)
    ensures Reachable(w.code, w.p, f, half, f.count)
    decreases k, 0
  {
    hide LinesOf, Reachable;
    if i < f.count {
      match w.code(Addr(f, i))
      case Plain =>
        var m := PlainGoes(w, f, i, half, [], [], h);
        EdgeReachable(w.code, w.p, f, half, i, i + 1);
        GoesAlong(w, f, half, i, h, k, i + 1, h + [Addr(f, i)], m);
      case Call(_, name) => NodeCalls(w, f, half, i, h, k, name);
      case Branch(t) => NodeBranches(w, f, half, i, h, k, t);
      case Likely(t) => NodeBranches(w, f, half, i, h, k, t);
      case Jump(t) => NodeLeaves(w, f, half, i, h, k, t);
      case Leave(_, name) =>
        var r := RestOf(w.code, f, i, half, []);
        TransferGoes(w, f, i, ChainReturn(name), r, half, [], [], h);
        LineFalls(w, f, half, i, h, k, ChainReturn(name), name, r, 2);
      case Ret =>
        ReturnEnds(w, f, half, i, h);
        NeverFalls(w, AtNode(w.code, f, i, half, [], [], h), Done(h + [Addr(f, i), Addr(f, i) + 4]), 3, f.name, k);
    }
  }

  lemma ReturnEnds(w: World, f: Fn, half: bool, i: nat, h: seq<nat>)
    requires |f.stray| == f.count && i < f.count && w.code(Addr(f, i)).Ret?
    ensures Goes(w, AtNode(w.code, f, i, half, [], [], h), Done(h + [Addr(f, i), Addr(f, i) + 4]), 3)
  {
    var r, h2 := RestOf(w.code, f, i, half, []), h + [Addr(f, i), Addr(f, i) + 4];
    TransferGoes(w, f, i, Return, r, half, [], [], h);
    GoesOnce(w, At(f.name, [Return] + r, [], h2), Done(h2));
    GoesOn(w, AtNode(w.code, f, i, half, [], [], h), At(f.name, [Return] + r, [], h2), Done(h2), 2, 1);
  }

  /** Along an edge. */
  lemma GoesAlong(w: World, f: Fn, half: bool, i: nat, h: seq<nat>, k: nat, x: nat, h': seq<nat>, m: nat)
    requires Laid(w, f, half, []) && i <= f.count && x <= f.count && Reachable(w.code, w.p, f, half, x)
    requires FallsAt(w.p, w.cond, AtNode(w.code, f, i, half, [], [], h), f.name, k)
    requires m > 0 && Goes(w, AtNode(w.code, f, i, half, [], [], h), AtNode(w.code, f, x, half, [], [], h'), m)
    ensures Reachable(w.code, w.p, f, half, f.count)
    decreases k, 0, 0
  {
    hide Node, LinesOf, Reachable;
    StillFalls(w, AtNode(w.code, f, i, half, [], [], h), AtNode(w.code, f, x, half, [], [], h'), m, f.name, k);
    NodeFalls(w, f, half, x, h', k - m);
  }

  /** Through a line that enters another function for good. */
  lemma LineFalls(w: World, f: Fn, half: bool, i: nat, h: seq<nat>, k: nat, line: Line, name: Name, r: Body, m: nat)
    requires Laid(w, f, half, []) && i < f.count && (line == TailCall(name) || line == ChainReturn(name))
    requires FallsAt(w.p, w.cond, AtNode(w.code, f, i, half, [], [], h), f.name, k)
    requires Goes(w, AtNode(w.code, f, i, half, [], [], h),
                  At(f.name, [line] + r, [], h + [Addr(f, i), Addr(f, i) + 4]), m)
    ensures Reachable(w.code, w.p, f, half, f.count)
    decreases k, 0, 0
  {
    var s, h2 := AtNode(w.code, f, i, half, [], [], h), h + [Addr(f, i), Addr(f, i) + 4];
    var c := At(f.name, [line] + r, [], h2);
    var e := Enter(w.p, name, [], h2);
    assert CStep(w.p, w.cond, c) == e;
    GoesOnce(w, c, e);
    GoesOn(w, s, c, e, m, 1);
    if name in w.p {
      StillFalls(w, s, e, m + 1, f.name, k);
      EnteredFalls(w, f, half, name, h2, k - m - 1);
    } else {
      NeverFalls(w, s, e, m + 1, f.name, k);
    }
  }

  lemma NodeBranches(w: World, f: Fn, half: bool, i: nat, h: seq<nat>, k: nat, t: nat)
    requires Laid(w, f, half, []) && i < f.count && Reachable(w.code, w.p, f, half, i)
    requires FallsAt(w.p, w.cond, AtNode(w.code, f, i, half, [], [], h), f.name, k)
    requires Conditional(w.code(Addr(f, i)), t)
    ensures Reachable(w.code, w.p, f, half, f.count)
    decreases k, 0, 2
  {
    if w.cond(h + [Addr(f, i)]) {
      NodeLeaves(w, f, half, i, h, k, t);
    } else {
      var m := UntakenGoes(w, f, i, t, half, [], [], h);
      var x := if w.code(Addr(f, i)).Likely? then i + 2 else i + 1;
      EdgeReachable(w.code, w.p, f, half, i, x);
      GoesAlong(w, f, half, i, h, k, x, h + [Addr(f, i)], m);
    }
  }

  /** A branch taken, or a jump. */
  lemma NodeLeaves(w: World, f: Fn, half: bool, i: nat, h: seq<nat>, k: nat, t: nat)
    requires Laid(w, f, half, []) && i < f.count && Reachable(w.code, w.p, f, half, i)
    requires FallsAt(w.p, w.cond, AtNode(w.code, f, i, half, [], [], h), f.name, k)
    requires w.code(Addr(f, i)) == Jump(t) || (Conditional(w.code(Addr(f, i)), t) && w.cond(h + [Addr(f, i)]))
    ensures Reachable(w.code, w.p, f, half, f.count)
    decreases k, 0, 1
  {
    if Window(f, t) {
      var x := LandsSomewhere(w.code, f, half, i, t);
      var m := TakenLands(w, f, i, t, x, half, [], [], h);
      EdgeReachable(w.code, w.p, f, half, i, x);
      GoesAlong(w, f, half, i, h, k, x, h + [Addr(f, i), Addr(f, i) + 4], m);
    } else {
      var m, r := TakenGoes(w, f, i, t, half, [], [], h);
      LineFalls(w, f, half, i, h, k, TailCall(Func(t)), Func(t), r, m);
    }
  }

  lemma LandsSomewhere(code: Code, f: Fn, half: bool, i: nat, t: nat) returns (x: nat)
    requires WellDecoded(code, f) && i < f.count && TargetOf(code(Addr(f, i))) == Some(t) && Window(f, t)
    ensures x <= f.count && Lands(f, t, half, x)
  {
    assert IsTarget(code, f, t);
    if half && t == f.lo {
      x := f.entryAt + 1;
    } else if t == Next(f) {
      x := f.endAt + 1;
    } else {
      assert TargetKnown(code, f, t);
      x :| x < f.count && t == Addr(f, x);
    }
  }

  lemma NodeCalls(w: World, f: Fn, half: bool, i: nat, h: seq<nat>, k: nat, name: Name)
    requires Laid(w, f, half, []) && i < f.count && Reachable(w.code, w.p, f, half, i)
    requires FallsAt(w.p, w.cond, AtNode(w.code, f, i, half, [], [], h), f.name, k)
    requires w.code(Addr(f, i)).Call? && w.code(Addr(f, i)).name == name
    ensures Reachable(w.code, w.p, f, half, f.count)
    decreases k, 0, 1
  {
    hide Node, LinesOf, Reachable, RestOf;
    var h2, r := h + [Addr(f, i), Addr(f, i) + 4], CallRest(w.code, f, i, half, []);
    CallEntersCallee(w, f, i, half, h);
    StillFalls(w, AtNode(w.code, f, i, half, [], [], h), Called(w, f, i, half, h2), 3, f.name, k);
    if name !in w.p {
      BackFalls(w, f, half, i, h2, k - 3);
    } else {
      var m, h' := CallFalls(w, name, Frame(f.name, r), h2, f.name, k - 3);
      if FallsAt(w.p, w.cond, At(name, w.p[name], [], h2), f.name, k - 3) {
        EnteredFalls(w, f, half, name, h2, k - 3);
      } else {
        BackFalls(w, f, half, i, h', k - 3 - m);
      }
    }
  }

  /** From the return of a call on. */
  lemma BackFalls(w: World, f: Fn, half: bool, i: nat, h: seq<nat>, k: nat)
    requires Laid(w, f, half, []) && i < f.count && Reachable(w.code, w.p, f, half, i)
    requires w.code(Addr(f, i)).Call? && CanReturn(w.p, w.code(Addr(f, i)).name)
    requires FallsAt(w.p, w.cond, At(f.name, CallRest(w.code, f, i, half, []), [], h), f.name, k)
    ensures Reachable(w.code, w.p, f, half, f.count)
    decreases k, 1
  {
    hide Node, LinesOf, RestOf, Reachable;
    assert SlotFollows(w.code, f, i);
    var s, t := At(f.name, CallRest(w.code, f, i, half, []), [], h), AtNode(w.code, f, i + 2, half, [], [], h);
    var j := LinkComesTo(w, f, i, half, [], RestOf(w.code, f, i, half, []), [], h);
    StillFalls(w, s, t, j, f.name, k);
    EdgeReachable(w.code, w.p, f, half, i, i + 2);
    NodeFalls(w, f, half, i + 2, h, k - j);
  }

  /** A function with nothing chained to it can fall off its closing brace exactly if there is a path from its entry to
      its end, along decoded instructions and calls that can come back. */
  lemma FallsIffReachable(code: Code, p: Program, f: Fn, half: bool)
    requires Unchained(code, p, f, half)
    ensures CanFall(p, f.name) <==> Reachable(code, p, f, half, f.count)
  {
    if CanFall(p, f.name) {
      var cond, k: nat :| FallsAt(p, cond, Started(p, f.name), f.name, k);
      EnteredFalls(Bare(code, p, cond), f, half, f.name, [], k);
    }
    if Reachable(code, p, f, half, f.count) {
      ReachedEndFalls(code, p, f, half);
    }
  }
}

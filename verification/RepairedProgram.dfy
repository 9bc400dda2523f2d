/** Main result about the repair scripts: a section whose functions went through fix_stumps,
    fix_backbranches and fix_selfentry without a complaint runs exactly as its MIPS code, calls included. */
module RepairedProgram {
  import opened Wrappers
  import opened RecompiledCode
  import opened StumpRepair
  import opened BranchRepair
  import opened EntryRepair
  import opened Recompiler

  // ---------------------------------------------------------------- linked programs

  /** One section: its MIPS code, its generated functions, the repaired C program they are part of,
      the successors fix_stumps chained, and the branch outcomes. */
  datatype World = World(code: Code, fns: set<Fn>, p: Program, chains: map<Fn, Name>, cond: seq<nat> -> bool)

  /** A call to `name` enters the function of this section that starts at address a. */
  ghost predicate Enters(fns: set<Fn>, name: Name, a: nat) {
    exists g :: g in fns && g.name == name && g.lo == a
  }

  /** The C name that was emitted for a call or jump leads where the machine goes, or out of the program. */
  ghost predicate LeadsRight(i: Instr, fns: set<Fn>, p: Program) {
    match i
    case Call(callee, name) => if callee.Some? then Enters(fns, name, callee.value) else name !in p
    case Leave(t, name) => Enters(fns, name, t)
    case _ => true
  }

  ghost predicate CallsSound(code: Code, fns: set<Fn>, p: Program, f: Fn) {
    forall i: nat :: i < f.count ==> LeadsRight(code(Addr(f, i)), fns, p)
  }

  /** The label of the address behind the span, if a branch wants it, is the last thing emitted. */
  ghost predicate EndLabelLast(code: Code, f: Fn) {
    IsTarget(code, f, Next(f)) ==> f.endAt + 1 == f.count
  }

  function TailOf(chains: map<Fn, Name>, f: Fn): Body {
    if f in chains then [ChainReturn(chains[f])] else []
  }

  ghost predicate Shaped(w: World, f: Fn) {
    WellDecoded(w.code, f) && f.name in w.p && w.p[f.name] == Lines(w, f, 0)
  }

  /** The body of f has the repaired shape and all its exits lead into the same section. */
  ghost predicate Linked(w: World, f: Fn) {
    && Shaped(w, f)
    && EndLabelLast(w.code, f)
    && CallsSound(w.code, w.fns, w.p, f)
    && (if f in w.chains then Enters(w.fns, w.chains[f], Next(f)) else !Scan(w.p[f.name], true, 0, FLOW))
    && (forall t: nat :: IsTarget(w.code, f, t) && !Window(f, t) ==> Enters(w.fns, Func(t), t))
  }

  ghost predicate LinkedAll(w: World) {
    forall f {:trigger Linked(w, f)} :: f in w.fns ==> Linked(w, f)
  }

  /** The lines of f from instruction i on, with its label and without. */
  ghost function Lines(w: World, f: Fn, i: nat): Body
    requires |f.stray| == f.count
  {
    Fixed(w.code, f, i, TailOf(w.chains, f))
  }

  ghost function Visit(w: World, f: Fn, i: nat): Body
    requires |f.stray| == f.count && i < f.count
  {
    Behind(w.code, f, i, TailOf(w.chains, f))
  }

  /** The lines behind instruction i. */
  ghost function Rest(w: World, f: Fn, i: nat): Body
    requires |f.stray| == f.count && i < f.count
  {
    Trail(w.code, f, i) + (Notes(|f.stray[i]|) + Lines(w, f, i + 1))
  }

  lemma {:induction false} FixedWellFormed(code: Code, f: Fn, i: nat, tail: Body)
    requires WellDecoded(code, f) && (tail == [] || (|tail| == 1 && tail[0].ChainReturn?))
    ensures WellFormed(Fixed(code, f, i, tail), 0)
    ensures i < f.count ==> WellFormed(Behind(code, f, i, tail), 0)
    decreases f.count - i
  {
    if i >= f.count {
      assert tail != [] ==> tail[1..] == [];
    } else {
      FixedWellFormed(code, f, i + 1, tail);
      var e := Fixed(code, f, i + 1, tail);
      var n := Notes(|f.stray[i]|);
      FlatLines(n, e);
      TrailMarks(code, f, i);
      FlatLines(Trail(code, f, i), n + e);
      UnitWellFormed(code, f, Addr(f, i), Trail(code, f, i) + (n + e));
      FlatLines(EveryMark(code, f, i), Behind(code, f, i, tail));
    }
  }

  lemma {:induction false} FlatLines(a: Body, b: Body)
    requires forall i :: 0 <= i < |a| ==> !a[i].IfOpen? && !a[i].Close?
    requires WellFormed(b, 0)
    ensures WellFormed(a + b, 0)
  {
    if a == [] {
      assert a + b == b;
    } else {
      assert (a + b)[1..] == a[1..] + b;
      FlatLines(a[1..], b);
    }
  }

  lemma UnitWellFormed(code: Code, f: Fn, a: nat, b: Body)
    requires f.count > 0 && WellFormed(b, 0)
    ensures WellFormed(FixedUnit(code, f, a) + b, 0)
  {
    var u := FixedUnit(code, f, a);
    match code(a)
    case Branch(t) =>
      BranchWellFormed(u, b);
      assert u + b == u[..5] + b;
    case Likely(t) =>
      FlatLines([u[5]], b);
      BranchWellFormed(u[..5], [u[5]] + b);
      assert u + b == u[..5] + ([u[5]] + b);
    case _ => FlatLines(u, b);
  }

  lemma BranchWellFormed(u: Body, b: Body)
    requires |u| == 5 && u[0].Insn? && u[1].IfOpen? && u[2].Insn? && u[4].Close? && WellFormed(b, 0)
    requires u[3].Goto? || u[3].TailCall?
    ensures WellFormed(u + b, 0)
  {
    var w := u + b;
    assert w[1..][1..][1..][1..][1..] == b;
    assert WellFormed(w[1..][1..][1..][1..], 1);
    assert WellFormed(w[1..][1..][1..], 1);
    assert WellFormed(w[1..][1..], 1);
    assert WellFormed(w[1..], 0);
  }

  // ---------------------------------------------------------------- labels of a repaired body

  /** A label that is not among those of instruction i is searched for behind its lines. */
  lemma LabelBehind(code: Code, f: Fn, i: nat, tail: Body, lab: Label)
    requires |f.stray| == f.count && i < f.count
    requires Mark(lab) !in EveryMark(code, f, i) && Mark(lab) !in Trail(code, f, i)
    ensures FindMark(Fixed(code, f, i, tail), lab) == FindMark(Fixed(code, f, i + 1, tail), lab)
  {
    var m, u, a := EveryMark(code, f, i), FixedUnit(code, f, Addr(f, i)), Trail(code, f, i);
    var n, e := Notes(|f.stray[i]|), Fixed(code, f, i + 1, tail);
    UnitHasNoMark(code, f, Addr(f, i));
    FindMarkBehind(m, u + (a + (n + e)), lab);
    FindMarkBehind(u, a + (n + e), lab);
    FindMarkBehind(a, n + e, lab);
    FindMarkBehind(n, e, lab);
  }

  lemma UnitHasNoMark(code: Code, f: Fn, a: nat)
    requires f.count > 0
    ensures forall line :: line in FixedUnit(code, f, a) ==> !line.Mark?
  {
  }

  lemma {:induction false} LocalLabelFound(code: Code, f: Fn, i: nat, j: nat, tail: Body)
    requires WellDecoded(code, f) && i <= j < f.count && IsTarget(code, f, Addr(f, j))
    ensures FindMark(Fixed(code, f, i, tail), L(Addr(f, j))) == Some(Behind(code, f, j, tail))
    decreases j - i
  {
    if i == j {
      assert (EveryMark(code, f, i) + Behind(code, f, i, tail))[1..] == Behind(code, f, i, tail);
    } else {
      LocalLabelFound(code, f, i + 1, j, tail);
      LabelBehind(code, f, i, tail, L(Addr(f, j)));
    }
  }

  lemma LinkLabelHere(code: Code, f: Fn, i: nat, tail: Body, lab: Label)
    requires f.count == |f.stray| && i < f.count && LinkMark(code, f, i) == [Mark(lab)] && !lab.L?
    ensures FindMark(Fixed(code, f, i, tail), lab) ==
            Some(EndMark(code, f, i) + (Notes(|f.stray[i]|) + Fixed(code, f, i + 1, tail)))
  {
    var m, u, b := EveryMark(code, f, i), FixedUnit(code, f, Addr(f, i)), EndMark(code, f, i);
    var r := Notes(|f.stray[i]|) + Fixed(code, f, i + 1, tail);
    UnitHasNoMark(code, f, Addr(f, i));
    assert ([Mark(lab)] + b) + r == ([] + [Mark(lab)]) + (b + r);
    MarkBehindThree(m, u, [], b + r, lab);
  }

  lemma {:induction false} LinkLabelFound(code: Code, f: Fn, i: nat, j: nat, tail: Body)
    requires WellDecoded(code, f) && i <= j + 1 < f.count && LinkLabel(code, Addr(f, j)).Some?
    ensures FindMark(Fixed(code, f, i, tail), LinkLabel(code, Addr(f, j)).value) ==
            Some(EndMark(code, f, j + 1) + (Notes(|f.stray[j + 1]|) + Fixed(code, f, j + 2, tail)))
    decreases j + 1 - i
  {
    hide FixedUnit, IsTarget;
    var lab := LinkLabel(code, Addr(f, j)).value;
    if i == j + 1 {
      LinkLabelHere(code, f, i, tail, lab);
    } else {
      LinkLabelFound(code, f, i + 1, j, tail);
      LabelBehind(code, f, i, tail, lab);
    }
  }

  lemma {:induction false} EndLabelFound(code: Code, f: Fn, i: nat, tail: Body)
    requires WellDecoded(code, f) && i <= f.endAt && IsTarget(code, f, Next(f))
    ensures FindMark(Fixed(code, f, i, tail), L(Next(f))) ==
            Some(Notes(|f.stray[f.endAt]|) + Fixed(code, f, f.endAt + 1, tail))
    decreases f.endAt - i
  {
    hide IsTarget;
    var lab := L(Next(f));
    if i == f.endAt {
      var m, u, l := EveryMark(code, f, i), FixedUnit(code, f, Addr(f, i)), LinkMark(code, f, i);
      var r := Notes(|f.stray[i]|) + Fixed(code, f, i + 1, tail);
      UnitHasNoMark(code, f, Addr(f, i));
      MarkBehindThree(m, u, l, r, lab);
    } else {
      EndLabelFound(code, f, i + 1, tail);
      LabelBehind(code, f, i, tail, lab);
    }
  }

  lemma MarkBehindThree(m: Body, u: Body, l: Body, r: Body, lab: Label)
    requires Mark(lab) !in m && Mark(lab) !in u && Mark(lab) !in l
    ensures FindMark(m + (u + ((l + [Mark(lab)]) + r)), lab) == Some(r)
  {
    FindMarkBehind(m, u + ((l + [Mark(lab)]) + r), lab);
    FindMarkBehind(u, (l + [Mark(lab)]) + r, lab);
    assert (l + [Mark(lab)]) + r == l + ([Mark(lab)] + r);
    FindMarkBehind(l, [Mark(lab)] + r, lab);
    assert ([Mark(lab)] + r)[1..] == r;
  }

  // ---------------------------------------------------------------- going from state to state

  /** k steps lead from s to t. */
  ghost predicate Goes(w: World, s: CState, t: CState, k: nat)
    decreases k
  {
    if k == 0 then s == t else Goes(w, CStep(w.p, w.cond, s), t, k - 1)
  }

  lemma {:induction false} GoesOn(w: World, s: CState, t: CState, u: CState, j: nat, k: nat)
    requires Goes(w, s, t, j) && Goes(w, t, u, k)
    ensures Goes(w, s, u, j + k)
    decreases j
  {
    if j > 0 {
      GoesOn(w, CStep(w.p, w.cond, s), t, u, j - 1, k);
    }
  }

  lemma GoesOnce(w: World, s: CState, t: CState)
    requires t == CStep(w.p, w.cond, s)
    ensures Goes(w, s, t, 1)
  {
    assert Goes(w, t, t, 0);
  }

  lemma {:induction false} GoesIsRun(w: World, s: CState, t: CState, k: nat)
    ensures Goes(w, s, t, k) <==> CRun(w.p, w.cond, s, k) == t
    decreases k
  {
    if k > 0 {
      var s' := CStep(w.p, w.cond, s);
      GoesIsRun(w, s', t, k - 1);
      assert CRun(w.p, w.cond, s, 1) == CStep(w.p, w.cond, CRun(w.p, w.cond, s, 0));
      CRunAppend(w.p, w.cond, s, 1, k - 1);
    }
  }

  /** Labels and notes in front are passed without a visit. */
  lemma {:induction false} GoesPast(w: World, fn: Name, a: Body, r: Body, z: seq<Frame>, h: seq<nat>)
    requires forall i :: 0 <= i < |a| ==> a[i].Mark? || a[i].Note?
    ensures Goes(w, At(fn, a + r, z, h), At(fn, r, z, h), |a|)
  {
    if a == [] {
      assert a + r == r;
    } else {
      assert (a + r)[1..] == a[1..] + r;
      GoesPast(w, fn, a[1..], r, z, h);
    }
  }

  /** Past the labels and notes that end an instruction's lines. */
  lemma GoesPastTwo(w: World, fn: Name, a: Body, b: Body, r: Body, z: seq<Frame>, h: seq<nat>)
    requires forall i :: 0 <= i < |a| ==> a[i].Mark?
    requires forall i :: 0 <= i < |b| ==> b[i].Note?
    ensures Goes(w, At(fn, a + (b + r), z, h), At(fn, r, z, h), |a| + |b|)
  {
    GoesPast(w, fn, a, b + r, z, h);
    GoesPast(w, fn, b, r, z, h);
    GoesOn(w, At(fn, a + (b + r), z, h), At(fn, b + r, z, h), At(fn, r, z, h), |a|, |b|);
  }

  lemma {:induction false} FlowKept(w: World, fn: Name, s: CState, t: CState, k: nat)
    requires FlowOk(w.p, fn, s, FLOW) && Goes(w, s, t, k)
    ensures FlowOk(w.p, fn, t, FLOW)
    decreases k
  {
    if k > 0 {
      FlowStep(w.p, w.cond, fn, s, FLOW);
      FlowKept(w, fn, CStep(w.p, w.cond, s), t, k - 1);
    }
  }

  // ---------------------------------------------------------------- the simulation

  /** The C state that belongs to instruction i of f: behind its label, on the flow. */
  ghost predicate Here(w: World, c: CState, f: Fn, i: nat) {
    && f in w.fns && f.count == |f.stray| && i < f.count
    && c.At? && c.fn == f.name && c.rest == Visit(w, f, i)
    && FlowOk(w.p, f.name, c, FLOW)
  }

  /** A caller that goes on behind the call at instruction i of f. */
  ghost predicate AwaitsAt(w: World, frame: Frame, ret: nat, f: Fn, i: nat) {
    && f in w.fns && f.count == |f.stray| && i < f.count && w.code(Addr(f, i)).Call?
    && frame.fn == f.name && frame.rest == [Goto(After(Addr(f, i)))] + Rest(w, f, i) && ret == Addr(f, i) + 8
    && f.name in w.p && OnFlow(w.p[f.name], frame.rest, FLOW)
  }

  ghost predicate Awaits(w: World, frame: Frame, ret: nat) {
    exists f, i: nat :: AwaitsAt(w, frame, ret, f, i)
  }

  ghost predicate StackMatches(w: World, z: seq<Frame>, ms: seq<nat>) {
    |z| == |ms| && forall i :: 0 <= i < |z| ==> Awaits(w, z[i], ms[i])
  }

  ghost predicate Matches(w: World, m: Machine, c: CState) {
    match m
    case Halted(h) => c == Done(h)
    case Running(a, ms, h) =>
      c.At? && c.trace == h && StackMatches(w, c.stack, ms) && exists f, i: nat :: Here(w, c, f, i) && a == Addr(f, i)
  }

  lemma LinkedFlows(w: World, f: Fn, z: seq<Frame>, ms: seq<nat>, h: seq<nat>)
    requires Linked(w, f) && StackMatches(w, z, ms)
    ensures FlowOk(w.p, f.name, At(f.name, w.p[f.name], z, h), FLOW)
  {
    FixedWellFormed(w.code, f, 0, TailOf(w.chains, f));
    assert OnFlow(w.p[f.name], w.p[f.name], FLOW);
    forall i | 0 <= i < |z| && z[i].fn == f.name ensures OnFlow(w.p[f.name], z[i].rest, FLOW) {
      assert Awaits(w, z[i], ms[i]);
    }
  }

  lemma PassLabel(w: World, f: Fn, i: nat, z: seq<Frame>, h: seq<nat>) returns (k: nat, c: CState)
    requires f in w.fns && f.count == |f.stray| && i < f.count
    requires FlowOk(w.p, f.name, At(f.name, Lines(w, f, i), z, h), FLOW)
    ensures Goes(w, At(f.name, Lines(w, f, i), z, h), c, k)
    ensures Here(w, c, f, i) && c.trace == h && c.stack == z
  {
    var m, b := EveryMark(w.code, f, i), Visit(w, f, i);
    GoesPast(w, f.name, m, b, z, h);
    k, c := |m|, At(f.name, b, z, h);
    FlowKept(w, f.name, At(f.name, m + b, z, h), c, k);
  }

  /** Calling or tail-calling a function arrives at its first instruction. */
  lemma EnterArrives(w: World, name: Name, a: nat, z: seq<Frame>, ms: seq<nat>, h: seq<nat>) returns (k: nat, c: CState)
    requires LinkedAll(w) && Enters(w.fns, name, a) && StackMatches(w, z, ms)
    ensures name in w.p && Goes(w, Enter(w.p, name, z, h), c, k) && Matches(w, Running(a, ms, h), c)
  {
    var g :| g in w.fns && g.name == name && g.lo == a;
    assert Linked(w, g);
    LinkedFlows(w, g, z, ms, h);
    k, c := PassLabel(w, g, 0, z, h);
  }

  /** A line that enters a function at a arrives at its first instruction. */
  lemma EnterStep(w: World, s: CState, name: Name, a: nat, z: seq<Frame>, ms: seq<nat>, h: seq<nat>)
    returns (k: nat, c: CState)
    requires LinkedAll(w) && Enters(w.fns, name, a) && StackMatches(w, z, ms)
    requires CStep(w.p, w.cond, s) == Enter(w.p, name, z, h)
    ensures k > 0 && Goes(w, s, c, k) && Matches(w, Running(a, ms, h), c)
  {
    var e := Enter(w.p, name, z, h);
    GoesOnce(w, s, e);
    var k';
    k', c := EnterArrives(w, name, a, z, ms, h);
    GoesOn(w, s, e, c, 1, k');
    k := 1 + k';
  }

  /** Past the last instruction the flow goes on in the chained function. */
  lemma EndArrives(w: World, f: Fn, z: seq<Frame>, ms: seq<nat>, h: seq<nat>) returns (k: nat, c: CState)
    requires LinkedAll(w) && f in w.fns && StackMatches(w, z, ms)
    requires FlowOk(w.p, f.name, At(f.name, TailOf(w.chains, f), z, h), FLOW)
    ensures Goes(w, At(f.name, TailOf(w.chains, f), z, h), c, k) && Matches(w, Running(Next(f), ms, h), c)
  {
    assert Linked(w, f);
    var tail := TailOf(w.chains, f);
    var s := At(f.name, tail, z, h);
    if tail == [] {
      AtTheBrace(w.p, f.name, s, FLOW);
      assert false;
    } else {
      k, c := EnterStep(w, s, w.chains[f], Next(f), z, ms, h);
    }
  }

  /** From the lines of instruction i on, its label included, the flow arrives at the instruction at that
      address: in the same function, or, past its last instruction, in the one it was chained to. */
  lemma FlowArrives(w: World, f: Fn, i: nat, s: CState, j: nat, z: seq<Frame>, ms: seq<nat>, h: seq<nat>)
    returns (k: nat, c: CState)
    requires LinkedAll(w) && f in w.fns && i <= f.count == |f.stray| && StackMatches(w, z, ms)
    requires FlowOk(w.p, f.name, s, FLOW) && Goes(w, s, At(f.name, Lines(w, f, i), z, h), j)
    ensures k >= j && Goes(w, s, c, k) && Matches(w, Running(Addr(f, i), ms, h), c)
  {
    var t := At(f.name, Lines(w, f, i), z, h);
    FlowKept(w, f.name, s, t, j);
    var k';
    if i < f.count {
      k', c := PassLabel(w, f, i, z, h);
    } else {
      k', c := EndArrives(w, f, z, ms, h);
    }
    GoesOn(w, s, t, c, j, k');
    k := j + k';
  }

  /** A goto to an instruction of the span. */
  lemma LocalExit(w: World, f: Fn, i: nat, rest: Body, z: seq<Frame>, ms: seq<nat>, h: seq<nat>) returns (c: CState)
    requires Linked(w, f) && f in w.fns && i < f.count && IsTarget(w.code, f, Addr(f, i)) && StackMatches(w, z, ms)
    requires FlowOk(w.p, f.name, At(f.name, [Goto(L(Addr(f, i)))] + rest, z, h), FLOW)
    ensures Goes(w, At(f.name, [Goto(L(Addr(f, i)))] + rest, z, h), c, 1) && Matches(w, Running(Addr(f, i), ms, h), c)
  {
    var s := At(f.name, [Goto(L(Addr(f, i)))] + rest, z, h);
    LocalLabelFound(w.code, f, 0, i, TailOf(w.chains, f));
    c := At(f.name, Visit(w, f, i), z, h);
    GoesOnce(w, s, c);
    FlowKept(w, f.name, s, c, 1);
    assert Here(w, c, f, i);
  }

  /** A goto to the address behind the span: its label is the last thing emitted, so the flow leaves at the end. */
  lemma NextExit(w: World, f: Fn, rest: Body, z: seq<Frame>, ms: seq<nat>, h: seq<nat>) returns (k: nat, c: CState)
    requires LinkedAll(w) && f in w.fns && IsTarget(w.code, f, Next(f)) && StackMatches(w, z, ms)
    requires FlowOk(w.p, f.name, At(f.name, [Goto(L(Next(f)))] + rest, z, h), FLOW)
    ensures k > 0 && Goes(w, At(f.name, [Goto(L(Next(f)))] + rest, z, h), c, k)
    ensures Matches(w, Running(Next(f), ms, h), c)
  {
    assert Linked(w, f);
    var s := At(f.name, [Goto(L(Next(f)))] + rest, z, h);
    EndLabelFound(w.code, f, 0, TailOf(w.chains, f));
    var n := Notes(|f.stray[f.endAt]|);
    GoesOnce(w, s, At(f.name, n + Lines(w, f, f.count), z, h));
    GoesPast(w, f.name, n, Lines(w, f, f.count), z, h);
    GoesOn(w, s, At(f.name, n + Lines(w, f, f.count), z, h), At(f.name, Lines(w, f, f.count), z, h), 1, |n|);
    k, c := FlowArrives(w, f, f.count, s, 1 + |n|, z, ms, h);
  }

  /** Leaving through a branch: to the local label, to the end, or by the tail call. */
  lemma ExitArrives(w: World, f: Fn, t: nat, s: CState, j: nat, rest: Body, z: seq<Frame>, ms: seq<nat>, h: seq<nat>)
    returns (k: nat, c: CState)
    requires LinkedAll(w) && f in w.fns && Linked(w, f) && IsTarget(w.code, f, t) && StackMatches(w, z, ms)
    requires FlowOk(w.p, f.name, s, FLOW) && Goes(w, s, At(f.name, [Exit(f, t)] + rest, z, h), j)
    ensures k > j && Goes(w, s, c, k) && Matches(w, Running(t, ms, h), c)
  {
    var e := At(f.name, [Exit(f, t)] + rest, z, h);
    FlowKept(w, f.name, s, e, j);
    var k' := 1;
    if !Window(f, t) {
      k', c := EnterStep(w, e, Func(t), t, z, ms, h);
    } else if t == Next(f) {
      k', c := NextExit(w, f, rest, z, ms, h);
    } else {
      assert TargetKnown(w.code, f, t);
      var i: nat :| i < f.count && t == Addr(f, i);
      c := LocalExit(w, f, i, rest, z, ms, h);
    }
    GoesOn(w, s, e, c, j, k');
    k := j + k';
  }

  lemma PassTrailer(w: World, f: Fn, i: nat, z: seq<Frame>, h: seq<nat>) returns (k: nat)
    requires |f.stray| == f.count && i < f.count
    ensures Goes(w, At(f.name, Rest(w, f, i), z, h), At(f.name, Lines(w, f, i + 1), z, h), k)
  {
    var a, n := Trail(w.code, f, i), Notes(|f.stray[i]|);
    TrailMarks(w.code, f, i);
    GoesPastTwo(w, f.name, a, n, Lines(w, f, i + 1), z, h);
    k := |a| + |n|;
  }

  /** Visiting a plain instruction of the span leads to the lines of the next one. */
  lemma PlainVisit(w: World, f: Fn, i: nat, z: seq<Frame>, h: seq<nat>) returns (k: nat)
    requires |f.stray| == f.count && i < f.count && w.code(Addr(f, i)).Plain?
    ensures k > 0
    ensures Goes(w, At(f.name, Visit(w, f, i), z, h), At(f.name, Lines(w, f, i + 1), z, h + [Addr(f, i)]), k)
  {
    var e, r := Lines(w, f, i + 1), Rest(w, f, i);
    var s := At(f.name, Visit(w, f, i), z, h);
    var h' := h + [Addr(f, i)];
    assert s.rest == [Insn(Addr(f, i), None)] + r && s.rest[1..] == r;
    GoesOnce(w, s, At(f.name, r, z, h'));
    var k' := PassTrailer(w, f, i, z, h');
    GoesOn(w, s, At(f.name, r, z, h'), At(f.name, e, z, h'), 1, k');
    k := 1 + k';
  }

  /** The same, its label first. */
  lemma PlainVisitFrom(w: World, f: Fn, i: nat, z: seq<Frame>, h: seq<nat>) returns (k: nat)
    requires |f.stray| == f.count && i < f.count && w.code(Addr(f, i)).Plain?
    ensures Goes(w, At(f.name, Lines(w, f, i), z, h), At(f.name, Lines(w, f, i + 1), z, h + [Addr(f, i)]), k)
  {
    var m, b := EveryMark(w.code, f, i), Visit(w, f, i);
    GoesPast(w, f.name, m, b, z, h);
    var k' := PlainVisit(w, f, i, z, h);
    GoesOn(w, At(f.name, m + b, z, h), At(f.name, b, z, h), At(f.name, Lines(w, f, i + 1), z, h + [Addr(f, i)]), |m|,
      k');
    k := |m| + k';
  }

  /** The first two visits of a control instruction and its delay slot, up to the line that transfers control. */
  lemma TwoVisits(w: World, fn: Name, a: nat, br: Option<nat>, x: Line, r: Body, z: seq<Frame>, h: seq<nat>)
    ensures Goes(w, At(fn, [Insn(a, br), Insn(a + 4, None), x] + r, z, h), At(fn, [x] + r, z, h + [a, a + 4]), 2)
  {
    var s := At(fn, [Insn(a, br), Insn(a + 4, None), x] + r, z, h);
    assert s.rest[1..] == [Insn(a + 4, None), x] + r;
    assert s.rest[1..][1..] == [x] + r;
    assert h + [a] + [a + 4] == h + [a, a + 4];
    var t := CStep(w.p, w.cond, s);
    GoesOnce(w, s, t);
    GoesOnce(w, t, CStep(w.p, w.cond, t));
    GoesOn(w, s, t, CStep(w.p, w.cond, t), 1, 1);
  }

  /** The goto over a delay slot that has been dealt with. */
  lemma LinkGoes(w: World, f: Fn, i: nat, r: Body, z: seq<Frame>, h: seq<nat>) returns (k: nat)
    requires Shaped(w, f) && i < f.count && LinkLabel(w.code, Addr(f, i)).Some?
    ensures i + 2 <= f.count && k > 0
    ensures Goes(w, At(f.name, [Goto(LinkLabel(w.code, Addr(f, i)).value)] + r, z, h),
            At(f.name, Lines(w, f, i + 2), z, h), k)
  {
    hide FixedUnit, Fixed, IsTarget, FindMark;
    assert SlotFollows(w.code, f, i);
    LinkLabelFound(w.code, f, 0, i, TailOf(w.chains, f));
    var s := At(f.name, [Goto(LinkLabel(w.code, Addr(f, i)).value)] + r, z, h);
    var m, n, e := EndMark(w.code, f, i + 1), Notes(|f.stray[i + 1]|), Lines(w, f, i + 2);
    GoesOnce(w, s, At(f.name, m + (n + e), z, h));
    GoesPastTwo(w, f.name, m, n, e, z, h);
    GoesOn(w, s, At(f.name, m + (n + e), z, h), At(f.name, e, z, h), 1, |m| + |n|);
    k := 1 + |m| + |n|;
  }

  lemma CallVisits(w: World, f: Fn, i: nat, s: CState) returns (e: CState)
    requires Linked(w, f) && Here(w, s, f, i) && w.code(Addr(f, i)).Call?
    ensures Goes(w, s, e, 2) && FlowOk(w.p, f.name, e, FLOW)
    ensures var a := Addr(f, i);
            e == At(f.name, [CallTo(w.code(a).name)] + ([Goto(After(a))] + Rest(w, f, i)), s.stack,
                    s.trace + [a, a + 4])
  {
    var a, x := Addr(f, i), CallTo(w.code(Addr(f, i)).name);
    var r := [Goto(After(a))] + Rest(w, f, i);
    TwoVisits(w, f.name, a, None, x, r, s.stack, s.trace);
    assert s.rest == [Insn(a, None), Insn(a + 4, None), x] + r;
    e := At(f.name, [x] + r, s.stack, s.trace + [a, a + 4]);
    FlowKept(w, f.name, s, e, 2);
  }

  /** The call line of a function of the section enters it, with the caller waiting. */
  lemma CallEnters(w: World, f: Fn, i: nat, s: CState, ms: seq<nat>, name: Name, t: nat)
    returns (e: CState, z: seq<Frame>)
    requires LinkedAll(w) && Here(w, s, f, i) && w.code(Addr(f, i)) == Call(Some(t), name)
    requires StackMatches(w, s.stack, ms)
    ensures Goes(w, s, e, 2) && Enters(w.fns, name, t) && StackMatches(w, z, [Addr(f, i) + 8] + ms)
    ensures CStep(w.p, w.cond, e) == Enter(w.p, name, z, s.trace + [Addr(f, i), Addr(f, i) + 4])
  {
    hide Fixed, Behind, WellFormed, Scan, WellDecoded, FixedUnit;
    assert Linked(w, f);
    var a := Addr(f, i);
    assert LeadsRight(w.code(a), w.fns, w.p);
    e := CallVisits(w, f, i, s);
    var frame := Frame(f.name, [Goto(After(a))] + Rest(w, f, i));
    z := [frame] + s.stack;
    EnterIsThere(w, name, t);
    assert e.rest[1..] == frame.rest;
    CallerOnFlow(w, f, e, frame);
    assert AwaitsAt(w, frame, a + 8, f, i);
    StackGrows(w, s.stack, ms, frame, a + 8);
  }

  lemma CallerOnFlow(w: World, f: Fn, e: CState, frame: Frame)
    requires FlowOk(w.p, f.name, e, FLOW) && e.At? && e.fn == f.name == frame.fn
    requires e.rest != [] && e.rest[0].CallTo? && e.rest[0].callee in w.p && frame.rest == e.rest[1..]
    ensures OnFlow(w.p[f.name], frame.rest, FLOW)
  {
    FlowStep(w.p, w.cond, f.name, e, FLOW);
    var t := CStep(w.p, w.cond, e);
    assert t.stack[0] == frame;
  }

  /** A call of a function of the section: its first instruction. */
  lemma CallStep(w: World, f: Fn, i: nat, s: CState, ms: seq<nat>, name: Name, t: nat) returns (k: nat, c: CState)
    requires LinkedAll(w) && Here(w, s, f, i) && w.code(Addr(f, i)) == Call(Some(t), name)
    requires StackMatches(w, s.stack, ms)
    ensures k > 0 && Goes(w, s, c, k)
    ensures Matches(w, Running(t, [Addr(f, i) + 8] + ms, s.trace + [Addr(f, i), Addr(f, i) + 4]), c)
  {
    var e, z := CallEnters(w, f, i, s, ms, name, t);
    var k';
    k', c := EnterStep(w, e, name, t, z, [Addr(f, i) + 8] + ms, s.trace + [Addr(f, i), Addr(f, i) + 4]);
    GoesOn(w, s, e, c, 2, k');
    k := 2 + k';
  }

  lemma EnterIsThere(w: World, name: Name, a: nat)
    requires LinkedAll(w) && Enters(w.fns, name, a)
    ensures name in w.p
  {
    var g :| g in w.fns && g.name == name && g.lo == a;
    assert Linked(w, g);
  }

  lemma StackGrows(w: World, z: seq<Frame>, ms: seq<nat>, frame: Frame, ret: nat)
    requires StackMatches(w, z, ms) && Awaits(w, frame, ret)
    ensures StackMatches(w, [frame] + z, [ret] + ms)
  {
    forall i | 0 <= i < |z| + 1 ensures Awaits(w, ([frame] + z)[i], ([ret] + ms)[i]) {
      assert i > 0 ==> Awaits(w, z[i - 1], ms[i - 1]);
    }
  }

  /** A call of a function of another section comes back. */
  lemma OutsideCallStep(w: World, f: Fn, i: nat, s: CState, ms: seq<nat>, name: Name) returns (k: nat, c: CState)
    requires LinkedAll(w) && Here(w, s, f, i) && w.code(Addr(f, i)) == Call(None, name) && StackMatches(w, s.stack, ms)
    ensures k > 0 && Goes(w, s, c, k)
    ensures Matches(w, Running(Addr(f, i) + 8, ms, s.trace + [Addr(f, i), Addr(f, i) + 4]), c)
  {
    assert Linked(w, f);
    assert LeadsRight(w.code(Addr(f, i)), w.fns, w.p);
    var j := OutsideCallPasses(w, f, i, s, name);
    k, c := FlowArrives(w, f, i + 2, s, j, s.stack, ms, s.trace + [Addr(f, i), Addr(f, i) + 4]);
  }

  lemma OutsideCallPasses(w: World, f: Fn, i: nat, s: CState, name: Name) returns (k: nat)
    requires Linked(w, f) && Here(w, s, f, i) && w.code(Addr(f, i)) == Call(None, name) && name !in w.p
    ensures k > 0 && i + 2 <= f.count
    ensures Goes(w, s, At(f.name, Lines(w, f, i + 2), s.stack, s.trace + [Addr(f, i), Addr(f, i) + 4]), k)
  {
    var a, h := Addr(f, i), s.trace + [Addr(f, i), Addr(f, i) + 4];
    var e := CallVisits(w, f, i, s);
    var r := [Goto(After(a))] + Rest(w, f, i);
    assert e.rest[1..] == r;
    GoesOnce(w, e, At(f.name, r, s.stack, h));
    GoesOn(w, s, e, At(f.name, r, s.stack, h), 2, 1);
    var k' := LinkGoes(w, f, i, Rest(w, f, i), s.stack, h);
    GoesOn(w, s, At(f.name, r, s.stack, h), At(f.name, Lines(w, f, i + 2), s.stack, h), 3, k');
    k := 3 + k';
  }

  lemma ReturnVisits(w: World, f: Fn, i: nat, s: CState) returns (r: Body)
    requires Here(w, s, f, i) && w.code(Addr(f, i)).Ret?
    ensures Goes(w, s, At(f.name, [Return] + r, s.stack, s.trace + [Addr(f, i), Addr(f, i) + 4]), 2)
  {
    r := Rest(w, f, i);
    TwoVisits(w, f.name, Addr(f, i), None, Return, r, s.stack, s.trace);
  }

  /** Back in the caller the flow arrives behind the call. */
  lemma CallerGoesOn(w: World, frame: Frame, ret: nat, z: seq<Frame>, ms: seq<nat>, h: seq<nat>)
    returns (k: nat, c: CState)
    requires LinkedAll(w) && Awaits(w, frame, ret) && StackMatches(w, z, ms)
    ensures Goes(w, At(frame.fn, frame.rest, z, h), c, k) && Matches(w, Running(ret, ms, h), c)
  {
    var f, i: nat :| AwaitsAt(w, frame, ret, f, i);
    assert Linked(w, f);
    var s := At(frame.fn, frame.rest, z, h);
    LinkedFlows(w, f, z, ms, h);
    var k' := LinkGoes(w, f, i, Rest(w, f, i), z, h);
    k, c := FlowArrives(w, f, i + 2, s, k', z, ms, h);
  }

  /** A return with no caller ends the run. */
  lemma LastReturn(w: World, f: Fn, i: nat, s: CState) returns (c: CState)
    requires Here(w, s, f, i) && w.code(Addr(f, i)).Ret? && s.stack == []
    ensures Goes(w, s, c, 3) && c == Done(s.trace + [Addr(f, i), Addr(f, i) + 4])
  {
    var r := ReturnVisits(w, f, i, s);
    var g := At(f.name, [Return] + r, s.stack, s.trace + [Addr(f, i), Addr(f, i) + 4]);
    c := CStep(w.p, w.cond, g);
    GoesOnce(w, g, c);
    GoesOn(w, s, g, c, 2, 1);
  }

  lemma StackShrinks(w: World, z: seq<Frame>, ms: seq<nat>)
    requires StackMatches(w, z, ms) && z != []
    ensures Awaits(w, z[0], ms[0]) && StackMatches(w, z[1..], ms[1..])
  {
    forall j | 0 <= j < |z| - 1 ensures Awaits(w, z[1..][j], ms[1..][j]) {
      assert Awaits(w, z[j + 1], ms[j + 1]);
    }
  }

  /** A return to a caller pops it. */
  lemma ReturnPops(w: World, f: Fn, i: nat, s: CState) returns (b: CState)
    requires Here(w, s, f, i) && w.code(Addr(f, i)).Ret? && s.stack != []
    ensures Goes(w, s, b, 3)
    ensures b == At(s.stack[0].fn, s.stack[0].rest, s.stack[1..], s.trace + [Addr(f, i), Addr(f, i) + 4])
  {
    var r := ReturnVisits(w, f, i, s);
    var g := At(f.name, [Return] + r, s.stack, s.trace + [Addr(f, i), Addr(f, i) + 4]);
    b := CStep(w.p, w.cond, g);
    GoesOnce(w, g, b);
    GoesOn(w, s, g, b, 2, 1);
  }

  /** A return to a caller arrives behind the call. */
  lemma ReturnStep(w: World, f: Fn, i: nat, s: CState, ms: seq<nat>) returns (k: nat, c: CState)
    requires LinkedAll(w) && Here(w, s, f, i) && w.code(Addr(f, i)).Ret? && StackMatches(w, s.stack, ms) && ms != []
    ensures k > 0 && Goes(w, s, c, k)
    ensures Matches(w, Running(ms[0], ms[1..], s.trace + [Addr(f, i), Addr(f, i) + 4]), c)
  {
    hide Behind, FixedUnit, Fixed, WellFormed, Scan, AwaitsAt, Goes;
    var b := ReturnPops(w, f, i, s);
    StackShrinks(w, s.stack, ms);
    var k';
    k', c := CallerGoesOn(w, s.stack[0], ms[0], s.stack[1..], ms[1..], b.trace);
    GoesOn(w, s, b, c, 3, k');
    k := 3 + k';
  }

  lemma JumpVisits(w: World, f: Fn, i: nat, s: CState) returns (r: Body)
    requires Here(w, s, f, i) && w.code(Addr(f, i)).Jump?
    ensures Goes(w, s, At(f.name, [Exit(f, w.code(Addr(f, i)).target)] + r, s.stack,
                          s.trace + [Addr(f, i), Addr(f, i) + 4]), 2)
  {
    hide Fixed, EndMark, LinkMark;
    var t := w.code(Addr(f, i)).target;
    r := Rest(w, f, i);
    TwoVisits(w, f.name, Addr(f, i), Some(t), Exit(f, t), r, s.stack, s.trace);
  }

  lemma JumpStep(w: World, f: Fn, i: nat, s: CState, ms: seq<nat>, t: nat) returns (k: nat, c: CState)
    requires LinkedAll(w) && Here(w, s, f, i) && w.code(Addr(f, i)) == Jump(t) && StackMatches(w, s.stack, ms)
    ensures k > 0 && Goes(w, s, c, k) && Matches(w, Running(t, ms, s.trace + [Addr(f, i), Addr(f, i) + 4]), c)
  {
    assert Linked(w, f);
    var r := JumpVisits(w, f, i, s);
    assert IsTarget(w.code, f, t);
    k, c := ExitArrives(w, f, t, s, 2, r, s.stack, ms, s.trace + [Addr(f, i), Addr(f, i) + 4]);
  }

  lemma LeaveVisits(w: World, f: Fn, i: nat, s: CState, name: Name, t: nat) returns (e: CState)
    requires Here(w, s, f, i) && w.code(Addr(f, i)) == Leave(t, name)
    ensures Goes(w, s, e, 2)
    ensures CStep(w.p, w.cond, e) == Enter(w.p, name, s.stack, s.trace + [Addr(f, i), Addr(f, i) + 4])
  {
    var a, x := Addr(f, i), ChainReturn(name);
    TwoVisits(w, f.name, a, None, x, Rest(w, f, i), s.stack, s.trace);
    e := At(f.name, [x] + Rest(w, f, i), s.stack, s.trace + [a, a + 4]);
  }

  lemma LeaveStep(w: World, f: Fn, i: nat, s: CState, ms: seq<nat>, name: Name, t: nat) returns (k: nat, c: CState)
    requires LinkedAll(w) && Here(w, s, f, i) && w.code(Addr(f, i)) == Leave(t, name) && StackMatches(w, s.stack, ms)
    ensures k > 0 && Goes(w, s, c, k) && Matches(w, Running(t, ms, s.trace + [Addr(f, i), Addr(f, i) + 4]), c)
  {
    assert Linked(w, f);
    assert LeadsRight(w.code(Addr(f, i)), w.fns, w.p);
    var e := LeaveVisits(w, f, i, s, name, t);
    var k';
    k', c := EnterStep(w, e, name, t, s.stack, ms, s.trace + [Addr(f, i), Addr(f, i) + 4]);
    GoesOn(w, s, e, c, 2, k');
    k := 2 + k';
  }

  lemma TakenBranch(w: World, fn: Name, a: nat, t: nat, x: Line, r: Body, z: seq<Frame>, h: seq<nat>)
    requires w.cond(h + [a])
    ensures Goes(w, At(fn, [Insn(a, Some(t)), IfOpen, Insn(a + 4, None), x, Close] + r, z, h),
                 At(fn, [x] + ([Close] + r), z, h + [a, a + 4]), 3)
  {
    var s := At(fn, [Insn(a, Some(t)), IfOpen, Insn(a + 4, None), x, Close] + r, z, h);
    assert s.rest[1..] == [IfOpen, Insn(a + 4, None), x, Close] + r;
    var s1 := CStep(w.p, w.cond, s);
    GoesOnce(w, s, s1);
    assert s1.rest[1..] == [Insn(a + 4, None), x] + ([Close] + r);
    var s2 := CStep(w.p, w.cond, s1);
    GoesOnce(w, s1, s2);
    assert s2.rest[1..] == [x] + ([Close] + r);
    assert h + [a] + [a + 4] == h + [a, a + 4];
    GoesOnce(w, s2, CStep(w.p, w.cond, s2));
    GoesOn(w, s, s1, s2, 1, 1);
    GoesOn(w, s, s2, CStep(w.p, w.cond, s2), 2, 1);
  }

  lemma UntakenBranch(w: World, fn: Name, a: nat, t: nat, x: Line, r: Body, z: seq<Frame>, h: seq<nat>)
    requires !w.cond(h + [a]) && !x.IfOpen? && !x.Close?
    ensures Goes(w, At(fn, [Insn(a, Some(t)), IfOpen, Insn(a + 4, None), x, Close] + r, z, h), At(fn, r, z, h + [a]), 2)
  {
    var s := At(fn, [Insn(a, Some(t)), IfOpen, Insn(a + 4, None), x, Close] + r, z, h);
    var block := s.rest[1..][1..];
    assert block == [Insn(a + 4, None), x, Close] + r;
    assert block[1..] == [x, Close] + r;
    assert block[1..][1..] == [Close] + r;
    assert block[1..][1..][1..] == r;
    assert AfterClose(block, 1) == AfterClose(block[1..], 1) == AfterClose(block[1..][1..], 1) == Some(r);
    var s1 := CStep(w.p, w.cond, s);
    GoesOnce(w, s, s1);
    GoesOnce(w, s1, CStep(w.p, w.cond, s1));
    GoesOn(w, s, s1, CStep(w.p, w.cond, s1), 1, 1);
  }

  /** The lines behind the block of a conditional branch. */
  ghost function BehindBlock(w: World, f: Fn, i: nat): Body
    requires |f.stray| == f.count && i < f.count
  {
    if w.code(Addr(f, i)).Likely? then [Goto(Other(Addr(f, i)))] + Rest(w, f, i) else Rest(w, f, i)
  }

  lemma BlockLines(w: World, f: Fn, i: nat, t: nat)
    requires |f.stray| == f.count && i < f.count && (w.code(Addr(f, i)) == Branch(t) || w.code(Addr(f, i)) == Likely(t))
    ensures var a := Addr(f, i);
            Visit(w, f, i) == [Insn(a, Some(t)), IfOpen, Insn(a + 4, None), Exit(f, t), Close] + BehindBlock(w, f, i)
  {
  }

  /** A branch not taken visits its delay slot as the next instruction. */
  lemma UntakenVisits(w: World, f: Fn, i: nat, s: CState) returns (k: nat)
    requires Here(w, s, f, i) && w.code(Addr(f, i)).Branch? && !w.cond(s.trace + [Addr(f, i)])
    requires i + 1 < f.count && w.code(Addr(f, i + 1)).Plain?
    ensures k > 0
    ensures Goes(w, s, At(f.name, Lines(w, f, i + 2), s.stack, s.trace + [Addr(f, i), Addr(f, i) + 4]), k)
  {
    var a, h, z := Addr(f, i), s.trace, s.stack;
    var t, e, r := w.code(a).target, Lines(w, f, i + 1), Rest(w, f, i);
    BlockLines(w, f, i, t);
    UntakenBranch(w, f.name, a, t, Exit(f, t), r, z, h);
    var j := PassTrailer(w, f, i, z, h + [a]);
    GoesOn(w, s, At(f.name, r, z, h + [a]), At(f.name, e, z, h + [a]), 2, j);
    var j' := PlainVisitFrom(w, f, i + 1, z, h + [a]);
    var h2 := h + [a] + [Addr(f, i + 1)];
    GoesOn(w, s, At(f.name, e, z, h + [a]), At(f.name, Lines(w, f, i + 2), z, h2), 2 + j, j');
    assert h2 == h + [a, a + 4];
    k := 2 + j + j';
  }

  lemma UntakenStep(w: World, f: Fn, i: nat, s: CState, ms: seq<nat>) returns (k: nat, c: CState)
    requires LinkedAll(w) && Here(w, s, f, i) && w.code(Addr(f, i)).Branch? && !w.cond(s.trace + [Addr(f, i)])
    requires StackMatches(w, s.stack, ms)
    ensures k > 0 && Goes(w, s, c, k)
    ensures Matches(w, Running(Addr(f, i) + 8, ms, s.trace + [Addr(f, i), Addr(f, i) + 4]), c)
  {
    assert Linked(w, f);
    assert SlotFollows(w.code, f, i);
    var j := UntakenVisits(w, f, i, s);
    k, c := FlowArrives(w, f, i + 2, s, j, s.stack, ms, s.trace + [Addr(f, i), Addr(f, i) + 4]);
  }

  /** A likely branch not taken skips its delay slot. */
  lemma SkippedStep(w: World, f: Fn, i: nat, s: CState, ms: seq<nat>) returns (k: nat, c: CState)
    requires LinkedAll(w) && Here(w, s, f, i) && w.code(Addr(f, i)).Likely? && !w.cond(s.trace + [Addr(f, i)])
    requires StackMatches(w, s.stack, ms)
    ensures k > 0 && Goes(w, s, c, k) && Matches(w, Running(Addr(f, i) + 8, ms, s.trace + [Addr(f, i)]), c)
  {
    assert Linked(w, f);
    var a, h, z := Addr(f, i), s.trace, s.stack;
    var t, r := w.code(a).target, [Goto(Other(a))] + Rest(w, f, i);
    BlockLines(w, f, i, t);
    UntakenBranch(w, f.name, a, t, Exit(f, t), r, z, h);
    var j := LinkGoes(w, f, i, Rest(w, f, i), z, h + [a]);
    GoesOn(w, s, At(f.name, r, z, h + [a]), At(f.name, Lines(w, f, i + 2), z, h + [a]), 2, j);
    k, c := FlowArrives(w, f, i + 2, s, 2 + j, z, ms, h + [a]);
  }

  lemma TakenStep(w: World, f: Fn, i: nat, s: CState, ms: seq<nat>, t: nat) returns (k: nat, c: CState)
    requires LinkedAll(w) && Here(w, s, f, i) && (w.code(Addr(f, i)) == Branch(t) || w.code(Addr(f, i)) == Likely(t))
    requires w.cond(s.trace + [Addr(f, i)]) && StackMatches(w, s.stack, ms)
    ensures k > 0 && Goes(w, s, c, k)
    ensures Matches(w, Running(t, ms, s.trace + [Addr(f, i), Addr(f, i) + 4]), c)
  {
    hide Behind, FixedUnit, Fixed, WellFormed, Scan;
    assert Linked(w, f);
    var a, r := Addr(f, i), BehindBlock(w, f, i);
    BlockLines(w, f, i, t);
    TakenBranch(w, f.name, a, t, Exit(f, t), r, s.stack, s.trace);
    assert IsTarget(w.code, f, t);
    k, c := ExitArrives(w, f, t, s, 3, [Close] + r, s.stack, ms, s.trace + [a, a + 4]);
  }

  lemma PlainStep(w: World, f: Fn, i: nat, s: CState, ms: seq<nat>) returns (k: nat, c: CState)
    requires LinkedAll(w) && Here(w, s, f, i) && w.code(Addr(f, i)).Plain? && StackMatches(w, s.stack, ms)
    ensures k > 0 && Goes(w, s, c, k) && Matches(w, Running(Addr(f, i) + 4, ms, s.trace + [Addr(f, i)]), c)
  {
    var j := PlainVisit(w, f, i, s.stack, s.trace);
    k, c := FlowArrives(w, f, i + 1, s, j, s.stack, ms, s.trace + [Addr(f, i)]);
  }

  lemma BranchStep(w: World, f: Fn, i: nat, s: CState, ms: seq<nat>, t: nat) returns (k: nat, c: CState)
    requires LinkedAll(w) && Here(w, s, f, i) && StackMatches(w, s.stack, ms) && w.code(Addr(f, i)) == Branch(t)
    ensures var a := Addr(f, i);
            k > 0 && Goes(w, s, c, k) &&
            Matches(w, Running(if w.cond(s.trace + [a]) then t else a + 8, ms, s.trace + [a, a + 4]), c)
  {
    if w.cond(s.trace + [Addr(f, i)]) {
      k, c := TakenStep(w, f, i, s, ms, t);
    } else {
      k, c := UntakenStep(w, f, i, s, ms);
    }
  }

  lemma LikelyStep(w: World, f: Fn, i: nat, s: CState, ms: seq<nat>, t: nat) returns (k: nat, c: CState)
    requires LinkedAll(w) && Here(w, s, f, i) && StackMatches(w, s.stack, ms) && w.code(Addr(f, i)) == Likely(t)
    ensures var a := Addr(f, i);
            k > 0 && Goes(w, s, c, k) &&
            Matches(w, if w.cond(s.trace + [a]) then Running(t, ms, s.trace + [a, a + 4])
              else Running(a + 8, ms, s.trace + [a]), c)
  {
    if w.cond(s.trace + [Addr(f, i)]) {
      k, c := TakenStep(w, f, i, s, ms, t);
    } else {
      k, c := SkippedStep(w, f, i, s, ms);
    }
  }

  lemma CallMatched(w: World, f: Fn, i: nat, s: CState, ms: seq<nat>, m: Machine, callee: Option<nat>, name: Name)
    returns (k: nat, c: CState)
    requires LinkedAll(w) && Here(w, s, f, i) && StackMatches(w, s.stack, ms)
    requires w.code(Addr(f, i)) == Call(callee, name) && m == MStep(w.code, w.cond, Running(Addr(f, i), ms, s.trace))
    ensures k > 0 && Goes(w, s, c, k) && Matches(w, m, c)
  {
    hide Here, StackMatches, Matches, Goes;
    if callee.Some? {
      k, c := CallStep(w, f, i, s, ms, name, callee.value);
    } else {
      k, c := OutsideCallStep(w, f, i, s, ms, name);
    }
  }

  lemma ReturnMatched(w: World, f: Fn, i: nat, s: CState, ms: seq<nat>, m: Machine) returns (k: nat, c: CState)
    requires LinkedAll(w) && Here(w, s, f, i) && StackMatches(w, s.stack, ms)
    requires w.code(Addr(f, i)).Ret? && m == MStep(w.code, w.cond, Running(Addr(f, i), ms, s.trace))
    ensures k > 0 && Goes(w, s, c, k) && Matches(w, m, c)
  {
    hide Goes, Fixed, Behind;
    if ms == [] {
      k := 3;
      c := LastReturn(w, f, i, s);
    } else {
      k, c := ReturnStep(w, f, i, s, ms);
    }
  }

  lemma HereMatched(w: World, f: Fn, i: nat, s: CState, ms: seq<nat>, m: Machine) returns (k: nat, c: CState)
    requires LinkedAll(w) && Here(w, s, f, i) && StackMatches(w, s.stack, ms)
    requires m == MStep(w.code, w.cond, Running(Addr(f, i), ms, s.trace))
    ensures k > 0 && Goes(w, s, c, k) && Matches(w, m, c)
  {
    hide Here, StackMatches, Matches, Goes;
    match w.code(Addr(f, i))
    case Plain => k, c := PlainStep(w, f, i, s, ms);
    case Call(callee, name) => k, c := CallMatched(w, f, i, s, ms, m, callee, name);
    case Branch(t) => k, c := BranchStep(w, f, i, s, ms, t);
    case Likely(t) => k, c := LikelyStep(w, f, i, s, ms, t);
    case Jump(t) => k, c := JumpStep(w, f, i, s, ms, t);
    case Leave(t, name) => k, c := LeaveStep(w, f, i, s, ms, name, t);
    case Ret => k, c := ReturnMatched(w, f, i, s, ms, m);
  }

  /** One machine step is matched by at least one C step. */
  lemma StepMatched(w: World, m: Machine, s: CState) returns (k: nat, c: CState)
    requires LinkedAll(w) && Matches(w, m, s)
    ensures k > 0 && Goes(w, s, c, k) && Matches(w, MStep(w.code, w.cond, m), c)
  {
    if m.Halted? {
      GoesOnce(w, s, s);
      k, c := 1, s;
    } else {
      var f, i: nat :| Here(w, s, f, i) && m.pc == Addr(f, i);
      k, c := HereMatched(w, f, i, s, m.stack, MStep(w.code, w.cond, m));
    }
  }

  lemma {:induction false} RunMatched(w: World, f: Fn, n: nat) returns (k: nat, c: CState)
    requires LinkedAll(w) && f in w.fns
    ensures k >= n && Goes(w, Enter(w.p, f.name, [], []), c, k)
    ensures Matches(w, MRunOf(w, f, n), c)
  {
    if n == 0 {
      assert Enters(w.fns, f.name, f.lo);
      k, c := EnterArrives(w, f.name, f.lo, [], [], []);
    } else {
      var j, b := RunMatched(w, f, n - 1);
      var d;
      d, c := StepMatched(w, MRunOf(w, f, n - 1), b);
      GoesOn(w, Enter(w.p, f.name, [], []), b, c, j, d);
      k := j + d;
    }
  }

  // ---------------------------------------------------------------- the two directions

  function CRunOf(w: World, f: Fn, k: nat): CState {
    CRun(w.p, w.cond, Enter(w.p, f.name, [], []), k)
  }

  function MRunOf(w: World, f: Fn, n: nat): Machine {
    MRun(w.code, w.cond, Running(f.lo, [], []), n)
  }

  /** After k C steps the C program is where the machine is after n of its steps. */
  ghost predicate CaughtUp(w: World, f: Fn, n: nat, k: nat) {
    CRunOf(w, f, k).trace == MRunOf(w, f, n).trace && (MRunOf(w, f, n).Halted? <==> CRunOf(w, f, k).Done?)
  }

  /** After k C steps the C program has visited a prefix of what the machine visits, is neither off the end
      of a body nor stuck, and if it has returned so has the machine. */
  ghost predicate Contained(w: World, f: Fn, k: nat) {
    && CRunOf(w, f, k).trace <= MRunOf(w, f, k).trace
    && (CRunOf(w, f, k).At? || CRunOf(w, f, k).Done?)
    && (CRunOf(w, f, k).Done? ==> MRunOf(w, f, k) == Halted(CRunOf(w, f, k).trace))
  }

  ghost predicate IsFollowed(w: World, f: Fn, n: nat) {
    exists k: nat :: k >= n && CaughtUp(w, f, n, k)
  }

  /** Calling f behaves as the machine started at its address: same visits in the same order, same return. */
  ghost predicate SameBehaviour(w: World, f: Fn) {
    && (forall n: nat :: IsFollowed(w, f, n))
    && (forall k: nat :: Contained(w, f, k))
  }

  lemma MachineIsFollowed(w: World, f: Fn, n: nat)
    requires LinkedAll(w) && f in w.fns
    ensures IsFollowed(w, f, n)
  {
    var k, c := RunMatched(w, f, n);
    GoesIsRun(w, Enter(w.p, f.name, [], []), c, k);
    assert CaughtUp(w, f, n, k);
  }

  lemma NothingElseHappens(w: World, f: Fn, k: nat)
    requires LinkedAll(w) && f in w.fns
    ensures Contained(w, f, k)
  {
    hide LinkedAll, Enter;
    var s := Enter(w.p, f.name, [], []);
    var j, c := RunMatched(w, f, k);
    GoesIsRun(w, s, c, j);
    var now := CRun(w.p, w.cond, s, k);
    CRunAppend(w.p, w.cond, s, k, j - k);
    CRunTraceGrows(w.p, w.cond, now, j - k);
    if !now.At? {
      CRunTerminal(w.p, w.cond, now, j - k);
    }
  }

  lemma LinkedRunsTheMachine(w: World, f: Fn)
    requires LinkedAll(w) && f in w.fns
    ensures SameBehaviour(w, f)
  {
    forall n: nat ensures IsFollowed(w, f, n) {
      MachineIsFollowed(w, f, n);
    }
    forall k: nat ensures Contained(w, f, k) {
      NothingElseHappens(w, f, k);
    }
  }
}

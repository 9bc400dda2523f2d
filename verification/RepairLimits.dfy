/** Where the repair scripts do not reach: the exact conditions behind PlainlyNamedTargets,
    ReadableEntry and EndLabelLast in the pipeline theorem. */
module RepairLimits {
  import opened Wrappers
  import opened RecompiledCode
  import opened StumpRepair
  import opened BranchRepair
  import opened EntryRepair
  import opened Recompiler
  import opened RepairedProgram
  import opened RepairPipeline
  import opened FlowGraph

  // ---------------------------------------------------------------- the address visited next

  ghost predicate VisitsAt(p: Program, cond: seq<nat> -> bool, s: CState, a: nat, k: nat) {
    CRun(p, cond, s, k).trace == s.trace + [a]
  }

  /** Running on from s, the first address visited is a. */
  ghost predicate NextVisit(p: Program, cond: seq<nat> -> bool, s: CState, a: nat) {
    exists k: nat :: VisitsAt(p, cond, s, a, k)
  }

  ghost predicate Reaches(p: Program, cond: seq<nat> -> bool, s: CState, t: CState) {
    exists k: nat :: CRun(p, cond, s, k) == t
  }

  lemma OneNextVisit(p: Program, cond: seq<nat> -> bool, s: CState, a: nat, b: nat)
    requires NextVisit(p, cond, s, a) && NextVisit(p, cond, s, b)
    ensures a == b
  {
    hide CStep;
    var j: nat :| VisitsAt(p, cond, s, a, j);
    var k: nat :| VisitsAt(p, cond, s, b, k);
    var x, y, n := if j <= k then j else k, if j <= k then k else j, |s.trace|;
    CRunAppend(p, cond, s, x, y - x);
    CRunTraceGrows(p, cond, CRun(p, cond, s, x), y - x);
    assert CRun(p, cond, s, x).trace[n] == CRun(p, cond, s, y).trace[n];
  }

  /** A run that ends without a visit has none. */
  lemma EndsUnvisited(w: World, s: CState, t: CState, k: nat, a: nat)
    requires Goes(w, s, t, k) && !t.At? && t.trace == s.trace
    ensures !NextVisit(w.p, w.cond, s, a)
  {
    GoesIsRun(w, s, t, k);
    if NextVisit(w.p, w.cond, s, a) {
      var j: nat :| VisitsAt(w.p, w.cond, s, a, j);
      if j <= k {
        CRunAppend(w.p, w.cond, s, j, k - j);
        CRunTraceGrows(w.p, w.cond, CRun(w.p, w.cond, s, j), k - j);
      } else {
        CRunAppend(w.p, w.cond, s, k, j - k);
        CRunTerminal(w.p, w.cond, t, j - k);
      }
    }
  }

  /** What is visited next is not changed by steps that visit nothing. */
  lemma VisitLater(w: World, s: CState, t: CState, k: nat, a: nat)
    requires Goes(w, s, t, k) && t.trace == s.trace && NextVisit(w.p, w.cond, t, a)
    ensures NextVisit(w.p, w.cond, s, a)
  {
    var j: nat :| VisitsAt(w.p, w.cond, t, a, j);
    GoesIsRun(w, s, t, k);
    CRunAppend(w.p, w.cond, s, k, j);
    assert VisitsAt(w.p, w.cond, s, a, k + j);
  }

  lemma VisitNow(w: World, fn: Name, line: Line, r: Body, z: seq<Frame>, h: seq<nat>)
    requires line.Insn?
    ensures NextVisit(w.p, w.cond, At(fn, [line] + r, z, h), line.addr)
  {
    var s := At(fn, [line] + r, z, h);
    assert CRun(w.p, w.cond, s, 1) == CStep(w.p, w.cond, CRun(w.p, w.cond, s, 0));
    assert VisitsAt(w.p, w.cond, s, line.addr, 1);
  }

  // ---------------------------------------------------------------- bodies with and without fix_selfentry

  ghost predicate IsProcessed(w: World, f: Fn) {
    Laid(w, f, EntryOf(f.name).None?, TailOf(w.chains, f))
  }

  /** Every function went through the scripts, and chained ones are chained to the address behind their span. */
  ghost predicate ProcessedAll(w: World) {
    && (forall f {:trigger IsProcessed(w, f)} :: f in w.fns ==> IsProcessed(w, f))
    && (forall f :: f in w.fns && f in w.chains ==> Enters(w.fns, w.chains[f], Next(f)))
  }

  ghost function Here(w: World, f: Fn, i: nat, half: bool, z: seq<Frame>, h: seq<nat>): CState
    requires |f.stray| == f.count && i <= f.count
  {
    AtNode(w.code, f, i, half, TailOf(w.chains, f), z, h)
  }

  lemma UnitStarts(code: Code, f: Fn, a: nat, back: Body) returns (line: Line, r: Body)
    requires f.count > 0
    ensures FixedUnit(code, f, a) + back == [line] + r && IsInsnAt(line, a)
  {
    var u := FixedUnit(code, f, a);
    line, r := u[0], u[1..] + back;
    assert u == [u[0]] + u[1..];
    Assoc([u[0]], u[1..], back);
  }

  lemma InstructionVisited(w: World, f: Fn, i: nat, half: bool, z: seq<Frame>, h: seq<nat>)
    requires |f.stray| == f.count && i < f.count
    ensures NextVisit(w.p, w.cond, Here(w, f, i, half, z, h), Addr(f, i))
  {
    var line, r := UnitStarts(w.code, f, Addr(f, i), RestOf(w.code, f, i, half, TailOf(w.chains, f)));
    VisitNow(w, f.name, line, r, z, h);
  }

  lemma EnteredVisits(w: World, name: Name, a: nat, z: seq<Frame>, h: seq<nat>)
    requires ProcessedAll(w) && Enters(w.fns, name, a)
    ensures NextVisit(w.p, w.cond, Enter(w.p, name, z, h), a) && Enter(w.p, name, z, h).trace == h
  {
    var g :| g in w.fns && g.name == name && g.lo == a;
    assert IsProcessed(w, g);
    var half, e := EntryOf(g.name).None?, w.p[name];
    var k := ComesTo(w, g, [], 0, half, TailOf(w.chains, g), z, h);
    assert [] + e == e;
    InstructionVisited(w, g, 0, half, z, h);
    VisitLater(w, At(name, e, z, h), Here(w, g, 0, half, z, h), k, a);
  }

  /** Behind the last instruction the flow enters the chained function, or falls. */
  lemma EndVisits(w: World, f: Fn, half: bool, z: seq<Frame>, h: seq<nat>)
    requires ProcessedAll(w) && f in w.fns && |f.stray| == f.count
    ensures f in w.chains ==>
              && CStep(w.p, w.cond, Here(w, f, f.count, half, z, h)) == Enter(w.p, w.chains[f], z, h)
              && NextVisit(w.p, w.cond, Here(w, f, f.count, half, z, h), Next(f))
    ensures f !in w.chains ==> forall a :: !NextVisit(w.p, w.cond, Here(w, f, f.count, half, z, h), a)
  {
    var s := Here(w, f, f.count, half, z, h);
    var t := CStep(w.p, w.cond, s);
    GoesOnce(w, s, t);
    if f in w.chains {
      EnteredVisits(w, w.chains[f], Next(f), z, h);
      VisitLater(w, s, t, 1, Next(f));
    } else {
      forall a ensures !NextVisit(w.p, w.cond, s, a) {
        EndsUnvisited(w, s, t, 1, a);
      }
    }
  }

  /** A goto that lands at instruction x visits it next, and behind the last one the chained function's. */
  lemma GotoVisits(w: World, f: Fn, t: nat, x: nat, rest: Body, z: seq<Frame>, h: seq<nat>, a: nat)
    requires ProcessedAll(w) && f in w.fns && IsProcessed(w, f)
    requires IsTarget(w.code, f, t) && Lands(f, t, EntryOf(f.name).None?, x)
    ensures x <= f.count
    ensures NextVisit(w.p, w.cond, At(f.name, [Goto(L(t))] + rest, z, h), a) <==>
            a == Addr(f, x) && (x < f.count || f in w.chains)
  {
    var half, s := EntryOf(f.name).None?, At(f.name, [Goto(L(t))] + rest, z, h);
    var k := GotoLands(w, f, t, x, half, TailOf(w.chains, f), rest, z, h);
    if x < f.count {
      InstructionVisited(w, f, x, half, z, h);
    } else {
      EndVisits(w, f, half, z, h);
    }
    if x < f.count || f in w.chains {
      VisitLater(w, s, Here(w, f, x, half, z, h), k, Addr(f, x));
      if NextVisit(w.p, w.cond, s, a) {
        OneNextVisit(w.p, w.cond, s, a, Addr(f, x));
      }
    } else {
      FallsUnvisited(w, f, half, s, k, z, h, a);
    }
  }

  lemma FallsUnvisited(w: World, f: Fn, half: bool, s: CState, k: nat, z: seq<Frame>, h: seq<nat>, a: nat)
    requires |f.stray| == f.count && f !in w.chains && s.trace == h
    requires Goes(w, s, Here(w, f, f.count, half, z, h), k)
    ensures !NextVisit(w.p, w.cond, s, a)
  {
    var t := Here(w, f, f.count, half, z, h);
    GoesOnce(w, t, CStep(w.p, w.cond, t));
    GoesOn(w, s, t, CStep(w.p, w.cond, t), k, 1);
    EndsUnvisited(w, s, CStep(w.p, w.cond, t), k + 1, a);
  }

  // ---------------------------------------------------------------- what the scripts leave

  /** Everything the scripts ask of a section but readable names and a last end label. */
  ghost predicate ProcessedSection(code: Code, sy: Symbols, names: set<Name>, fns: set<Fn>, p: Program) {
    forall f {:trigger WentThrough(code, sy, names, fns, p, f)} :: f in fns ==> WentThrough(code, sy, names, fns, p, f)
  }

  ghost predicate WentThrough(code: Code, sy: Symbols, names: set<Name>, fns: set<Fn>, p: Program, f: Fn) {
    && WellDecoded(code, f) && NameSound(sy, f) && SymbolsSound(sy, names, fns, f.section)
    && RepairedWithoutComplaint(code, sy, names, p, f)
  }

  lemma FunctionProcessed(code: Code, sy: Symbols, names: set<Name>, fns: set<Fn>, w: World, f: Fn)
    requires WentThrough(code, sy, names, fns, w.p, f) && f in fns
    requires w.code == code && w.chains == Chains(code, sy, names, fns)
    ensures IsProcessed(w, f) && (f in w.chains ==> Enters(fns, w.chains[f], Next(f)))
  {
    if EntryOf(f.name).Some? {
      RepairedShape(code, sy, names, f);
    } else {
      ShapeWithoutEntryRepair(code, sy, names, f);
    }
    if f in w.chains {
      ChainedToNext(code, sy, names, fns, f);
    }
  }

  lemma SectionProcessed(code: Code, sy: Symbols, names: set<Name>, fns: set<Fn>, p: Program, cond: seq<nat> -> bool)
    requires ProcessedSection(code, sy, names, fns, p)
    ensures ProcessedAll(World(code, fns, p, Chains(code, sy, names, fns), cond))
  {
    hide Chains, IsProcessed;
    var w := World(code, fns, p, Chains(code, sy, names, fns), cond);
    forall f | f in fns ensures IsProcessed(w, f) && (f in w.chains ==> Enters(fns, w.chains[f], Next(f))) {
      assert WentThrough(code, sy, names, fns, p, f);
      FunctionProcessed(code, sy, names, fns, w, f);
    }
  }

  /** With a label the script knows behind its last instruction, a function is chained. */
  lemma LabelledEndIsChained(code: Code, sy: Symbols, names: set<Name>, f: Fn)
    requires WellDecoded(code, f) && NoComplaint(sy, names, Emitted(code, f)) && KnownBehind(code, f, f.count - 1)
    ensures StumpVerdict(sy, names, Emitted(code, f)).Chained?
  {
    var b := VerdictUpTo(code, f, f.count);
    RawScan(code, f, 0, true, SCRIPT);
    if StumpVerdict(sy, names, Emitted(code, f)).Kept? {
      KeptMeansDead(code, sy, names, f);
    }
  }

  // ---------------------------------------------------------------- the loop to the own entry

  lemma EntryNextIff(w: World, f: Fn, rest: Body, z: seq<Frame>, h: seq<nat>)
    requires ProcessedAll(w) && f in w.fns && IsTarget(w.code, f, f.lo)
    ensures NextVisit(w.p, w.cond, At(f.name, [Goto(L(f.lo))] + rest, z, h), f.lo) <==> f.name.Func? || f.name.Static?
  {
    assert IsProcessed(w, f);
    GotoVisits(w, f, f.lo, if EntryOf(f.name).Some? then 0 else f.entryAt + 1, rest, z, h, f.lo);
  }

  /** A loop back to a function's own entry visits the entry instruction next exactly if fix_selfentry can read the
      entry address off the function's name; under any other name the loop resumes behind the misplaced label. */
  lemma EntryLoopExact(code: Code, sy: Symbols, names: set<Name>, fns: set<Fn>, p: Program, cond: seq<nat> -> bool,
                       f: Fn, rest: Body, z: seq<Frame>, h: seq<nat>)
    requires ProcessedSection(code, sy, names, fns, p) && f in fns && IsTarget(code, f, f.lo)
    ensures NextVisit(p, cond, At(f.name, [Goto(L(f.lo))] + rest, z, h), f.lo) <==> f.name.Func? || f.name.Static?
  {
    SectionProcessed(code, sy, names, fns, p, cond);
    EntryNextIff(World(code, fns, p, Chains(code, sy, names, fns), cond), f, rest, z, h);
  }

  // ---------------------------------------------------------------- a branch to the address right behind the span

  /** The window reaches 8 bytes past the last decoded address, so a branch to the next address is
      taken for a local one and keeps its goto. */
  lemma NextAddressIsNotRewritten(sy: Symbols, g: Gen)
    requires Addrs(g.body) != []
    ensures var t := Max(Addrs(g.body)) + 4;
            t !in BadTargets(g.body) &&
              (forall i :: 0 <= i < |g.body| && g.body[i] == Goto(L(t)) ==> FixBranches(sy, g).body[i] == Goto(L(t)))
  {
    hide Addrs, Min, Max, Retarget;
    var t := Max(Addrs(g.body)) + 4;
    assert InWindow(Addrs(g.body), t);
    forall i | 0 <= i < |g.body| && g.body[i] == Goto(L(t)) ensures FixBranches(sy, g).body[i] == Goto(L(t)) {
      assert FixBranches(sy, g).body[i] == RetargetLine(g.body[i], FixableTargets(sy, g));
    }
  }

  lemma NextAddressNextIff(w: World, f: Fn, rest: Body, z: seq<Frame>, h: seq<nat>)
    requires ProcessedAll(w) && f in w.fns && IsTarget(w.code, f, Next(f)) && (f.endAt + 1 == f.count ==> f in w.chains)
    ensures NextVisit(w.p, w.cond, At(f.name, [Goto(L(Next(f)))] + rest, z, h), Next(f)) <==> f.endAt + 1 == f.count
  {
    assert IsProcessed(w, f);
    GotoVisits(w, f, Next(f), f.endAt + 1, rest, z, h, Next(f));
  }

  lemma EndEntersChained(w: World, f: Fn, rest: Body, z: seq<Frame>, h: seq<nat>)
    requires ProcessedAll(w) && f in w.fns && f in w.chains && IsTarget(w.code, f, Next(f)) && f.endAt + 1 == f.count
    ensures Reaches(w.p, w.cond, At(f.name, [Goto(L(Next(f)))] + rest, z, h), Enter(w.p, w.chains[f], z, h))
  {
    var half := EntryOf(f.name).None?;
    assert IsProcessed(w, f);
    var s, t := At(f.name, [Goto(L(Next(f)))] + rest, z, h), Here(w, f, f.count, half, z, h);
    var k := GotoLands(w, f, Next(f), f.count, half, TailOf(w.chains, f), rest, z, h);
    EndVisits(w, f, half, z, h);
    GoesOnce(w, t, Enter(w.p, w.chains[f], z, h));
    GoesOn(w, s, t, Enter(w.p, w.chains[f], z, h), k, 1);
    GoesIsRun(w, s, Enter(w.p, w.chains[f], z, h), k + 1);
  }

  lemma ChainedEntryVisits(w: World, f: Fn, s: CState, z: seq<Frame>)
    requires ProcessedAll(w) && f in w.fns && f in w.chains
    requires Reaches(w.p, w.cond, s, Enter(w.p, w.chains[f], z, s.trace))
    ensures NextVisit(w.p, w.cond, s, Next(f))
  {
    var t := Enter(w.p, w.chains[f], z, s.trace);
    var k: nat :| CRun(w.p, w.cond, s, k) == t;
    GoesIsRun(w, s, t, k);
    EnteredVisits(w, w.chains[f], Next(f), z, s.trace);
    VisitLater(w, s, t, k, Next(f));
  }

  lemma EndEntersIff(w: World, f: Fn, rest: Body, z: seq<Frame>, h: seq<nat>)
    requires ProcessedAll(w) && f in w.fns && IsTarget(w.code, f, Next(f)) && f in w.chains
    ensures Reaches(w.p, w.cond, At(f.name, [Goto(L(Next(f)))] + rest, z, h), Enter(w.p, w.chains[f], z, h)) <==>
            f.endAt + 1 == f.count
  {
    var s := At(f.name, [Goto(L(Next(f)))] + rest, z, h);
    if f.endAt + 1 == f.count {
      EndEntersChained(w, f, rest, z, h);
    } else if Reaches(w.p, w.cond, s, Enter(w.p, w.chains[f], z, h)) {
      ChainedEntryVisits(w, f, s, z);
      NextAddressNextIff(w, f, rest, z, h);
    }
  }

  lemma EndInChains(code: Code, sy: Symbols, names: set<Name>, fns: set<Fn>, p: Program, f: Fn)
    requires ProcessedSection(code, sy, names, fns, p) && f in fns && IsTarget(code, f, Next(f))
    ensures f.endAt + 1 == f.count ==> f in Chains(code, sy, names, fns)
  {
    assert WentThrough(code, sy, names, fns, p, f);
    if f.endAt + 1 == f.count {
      LabelledEndIsChained(code, sy, names, f);
    }
  }

  /** A branch to the address right behind the span visits that address next exactly if the label N64Recomp made up
      for it stands behind the last instruction. */
  lemma NextAddressReachedIff(code: Code, sy: Symbols, names: set<Name>, fns: set<Fn>, p: Program,
          cond: seq<nat> -> bool, f: Fn, rest: Body, z: seq<Frame>, h: seq<nat>)
    requires ProcessedSection(code, sy, names, fns, p) && f in fns && IsTarget(code, f, Next(f))
    ensures NextVisit(p, cond, At(f.name, [Goto(L(Next(f)))] + rest, z, h), Next(f)) <==> f.endAt + 1 == f.count
  {
    SectionProcessed(code, sy, names, fns, p, cond);
    EndInChains(code, sy, names, fns, p, f);
    NextAddressNextIff(World(code, fns, p, Chains(code, sy, names, fns), cond), f, rest, z, h);
  }

  /** It does so by entering the function chained to the end, with no visit in between. */
  lemma SuccessorReachedIff(code: Code, sy: Symbols, names: set<Name>, fns: set<Fn>, p: Program, cond: seq<nat> -> bool,
                            f: Fn, rest: Body, z: seq<Frame>, h: seq<nat>)
    requires ProcessedSection(code, sy, names, fns, p) && f in fns && IsTarget(code, f, Next(f))
    ensures var chains := Chains(code, sy, names, fns);
            var s := At(f.name, [Goto(L(Next(f)))] + rest, z, h);
            (f in chains && Reaches(p, cond, s, Enter(p, chains[f], z, h))) <==>
            f.endAt + 1 == f.count
  {
    var w := World(code, fns, p, Chains(code, sy, names, fns), cond);
    SectionProcessed(code, sy, names, fns, p, cond);
    EndInChains(code, sy, names, fns, p, f);
    if f in w.chains {
      EndEntersIff(w, f, rest, z, h);
    }
  }

  // ---------------------------------------------------------------- the callee of a rewritten branch

  /** After k steps the run is at the start of the named function, with the same callers and these visits. */
  ghost predicate EntersAfter(p: Program, cond: seq<nat> -> bool, s: CState, k: nat, name: Name, h: seq<nat>) {
    s.At? && name in p && CRun(p, cond, s, k) == At(name, p[name], s.stack, h)
  }

  lemma ExitEnters(w: World, f: Fn, i: nat, t: nat, half: bool, tail: Body, z: seq<Frame>, h: seq<nat>)
    requires |f.stray| == f.count && i < f.count && !Window(f, t)
    requires w.code(Addr(f, i)) == Jump(t) || (Conditional(w.code(Addr(f, i)), t) && w.cond(h + [Addr(f, i)]))
    ensures CRun(w.p, w.cond, AtNode(w.code, f, i, half, tail, z, h), if w.code(Addr(f, i)).Jump? then 3 else 4) ==
            Enter(w.p, Func(t), z, h + [Addr(f, i), Addr(f, i) + 4])
  {
    var s, h2 := AtNode(w.code, f, i, half, tail, z, h), h + [Addr(f, i), Addr(f, i) + 4];
    var k, r := TakenGoes(w, f, i, t, half, tail, z, h);
    GoesIsRun(w, s, At(f.name, [TailCall(Func(t))] + r, z, h2), k);
  }

  /** A branch out of the span that is taken at instruction i enters the section's function at its target exactly if the
      dump spells that function `func_<t>`, the only spelling fix_backbranches writes. */
  lemma RewrittenBranchEntersIff(code: Code, sy: Symbols, names: set<Name>, fns: set<Fn>, p: Program,
          cond: seq<nat> -> bool, f: Fn, i: nat, t: nat, half: bool, tail: Body, z: seq<Frame>, h: seq<nat>)
    requires |f.stray| == f.count && i < f.count && !Window(f, t)
    requires code(Addr(f, i)) == Jump(t) || (Conditional(code(Addr(f, i)), t) && cond(h + [Addr(f, i)]))
    requires ProcessedSection(code, sy, names, fns, p) && f in fns
    ensures (f.section, t) in sy.bySecVram && sy.bySecVram[(f.section, t)] in p
    ensures var name, s := sy.bySecVram[(f.section, t)], AtNode(code, f, i, half, tail, z, h);
            var k := if code(Addr(f, i)).Jump? then 3 else 4;
            EntersAfter(p, cond, s, k, name, h + [Addr(f, i), Addr(f, i) + 4]) <==> name == Func(t)
  {
    hide CRun, Node, ProcessedSection;
    SymbolEntered(code, sy, names, fns, p, f, i, t);
    ExitEnters(World(code, fns, p, map[], cond), f, i, t, half, tail, z, h);
  }

  lemma SymbolEntered(code: Code, sy: Symbols, names: set<Name>, fns: set<Fn>, p: Program, f: Fn, i: nat, t: nat)
    requires ProcessedSection(code, sy, names, fns, p) && f in fns
    requires i < f.count && TargetOf(code(Addr(f, i))) == Some(t) && !Window(f, t)
    ensures (f.section, t) in sy.bySecVram && sy.bySecVram[(f.section, t)] in p
  {
    assert WentThrough(code, sy, names, fns, p, f);
    assert IsTarget(code, f, t);
    ExitKnown(code, sy, names, f, t);
    var g :| g in fns && g.name == sy.bySecVram[(f.section, t)] && g.lo == t;
    assert WentThrough(code, sy, names, fns, p, g);
  }

  /** Two overlays of the shipped symbol table share 0x800D9960: section 2 (ovl_e) spells it func_800D9960,
      section 3 (ovl_a) func_800D9960_ovl_a. A branch to it from func_800D9AB0_ovl_a passes the script's
      test and is rewritten into a call of section 2's function. */
  lemma OverlayBranchGoesAstray()
    ensures var t, from := 0x800D9960, 0x800D9AB0;
            var sy := Symbols(map[Func(t) := 2, FuncIn(t, 3) := 3, FuncIn(from, 3) := 3],
                              map[(2, t) := Func(t), (3, t) := FuncIn(t, 3), (3, from) := FuncIn(from, 3)], 7);
            var g := Gen(FuncIn(from, 3), Unit(_ => Jump(t), from));
            AllAvailable(sy, g) && FixBranches(sy, g).body[2] == TailCall(Func(t)) && sy.name2sec[Func(t)] == 2
  {
    var t, from := 0x800D9960, 0x800D9AB0;
    var sy := Symbols(map[Func(t) := 2, FuncIn(t, 3) := 3, FuncIn(from, 3) := 3],
                      map[(2, t) := Func(t), (3, t) := FuncIn(t, 3), (3, from) := FuncIn(from, 3)], 7);
    var body := Unit(_ => Jump(t), from);
    var g := Gen(FuncIn(from, 3), body);
    UnitAddrs(_ => Jump(t), from);
    assert Addrs(body) == [from, from + 4];
    forall x ensures x in BranchTargets(body) <==> x == t {
      UnitTarget(_ => Jump(t), from, x);
    }
    assert t in FixableTargets(sy, g);
    assert Retarget(body, FixableTargets(sy, g))[2] == RetargetLine(body[2], FixableTargets(sy, g));
  }
}

/** The three scripts in their documented order (fix_stumps, fix_backbranches, fix_selfentry)
    turn emitted functions into a linked section, which then runs as its MIPS code. */
module RepairPipeline {
  import opened Wrappers
  import opened RecompiledCode
  import opened StumpRepair
  import opened BranchRepair
  import opened EntryRepair
  import opened Recompiler
  import opened RepairedProgram

  function Repair(sy: Symbols, names: set<Name>, g: Gen): Gen {
    FixEntry(FixBranches(sy, Chain(g, StumpVerdict(sy, names, g))))
  }

  predicate AllAvailable(sy: Symbols, g: Gen) {
    forall t :: t in BadTargets(g.body) ==> HasFunction(sy, g.name, t)
  }

  /** fix_backbranches and fix_selfentry on one function. */
  method Reroute(sy: Symbols, g: Gen) returns (out: Gen, missing: nat)
    ensures out == FixEntry(FixBranches(sy, g))
    ensures missing == 0 <==> AllAvailable(sy, g)
  {
    var rerouted;
    rerouted, missing := FixBackBranches(sy, g);
    out := FixSelfEntry(rerouted);
  }

  /** The first |out| functions, rerouted. */
  ghost predicate Rerouted(sy: Symbols, gens: seq<Gen>, out: seq<Gen>) {
    |out| <= |gens| && forall i :: 0 <= i < |out| ==> out[i] == FixEntry(FixBranches(sy, gens[i]))
  }

  lemma ReroutedOneMore(sy: Symbols, gens: seq<Gen>, out: seq<Gen>, one: Gen)
    requires Rerouted(sy, gens, out) && |out| < |gens| && one == FixEntry(FixBranches(sy, gens[|out|]))
    ensures Rerouted(sy, gens, out + [one])
  {
  }

  ghost predicate AvailableIn(sy: Symbols, gens: seq<Gen>, n: nat) {
    n <= |gens| && forall i :: 0 <= i < n ==> AllAvailable(sy, gens[i])
  }

  method RerouteAll(sy: Symbols, gens: seq<Gen>) returns (out: seq<Gen>, missing: nat)
    ensures |out| == |gens| && Rerouted(sy, gens, out)
    ensures missing == 0 <==> AvailableIn(sy, gens, |gens|)
  {
    out, missing := [], 0;
    for i := 0 to |gens|
      invariant |out| == i && Rerouted(sy, gens, out)
      invariant missing == 0 <==> AvailableIn(sy, gens, i)
    {
      var one, m := Reroute(sy, gens[i]);
      ReroutedOneMore(sy, gens, out, one);
      out := out + [one];
      missing := missing + m;
      assert AvailableIn(sy, gens, i + 1) <==> AvailableIn(sy, gens, i) && AllAvailable(sy, gens[i]);
    }
  }

  /** All three scripts over a list of generated functions; a result without complaints printed neither SKIP,
      WARN nor MISSING. That is so exactly if every function whose end is alive has one right behind it in its section,
      and every branch out of a function leads to one; a function chained to another still ends with that call. */
  method RepairAll(sy: Symbols, gens: seq<Gen>) returns (out: seq<Gen>, complaints: nat)
    ensures |out| == |gens|
    ensures forall i :: 0 <= i < |gens| ==> out[i] == Repair(sy, GenNames(gens), gens[i])
    ensures forall i, fn :: 0 <= i < |gens| && FallsOff(gens[i]) && Follows(sy, GenNames(gens), gens[i], fn) ==>
              out[i].body != [] && out[i].body[|out[i].body| - 1] == ChainReturn(fn)
    ensures complaints == 0 <==> forall i :: 0 <= i < |gens| ==> Complete(sy, GenNames(gens), gens[i])
  {
    out, complaints := RunScripts(sy, gens);
    forall i | 0 <= i < |gens|
      ensures NoComplaint(sy, GenNames(gens), gens[i]) <==> Complete(sy, GenNames(gens), gens[i])
    {
      NoComplaintIs(sy, GenNames(gens), gens[i]);
    }
    forall i, fn | 0 <= i < |gens| && FallsOff(gens[i]) && Follows(sy, GenNames(gens), gens[i], fn)
      ensures out[i].body != [] && out[i].body[|out[i].body| - 1] == ChainReturn(fn)
    {
      FollowerStaysLast(sy, GenNames(gens), gens[i], fn);
    }
  }

  method RunScripts(sy: Symbols, gens: seq<Gen>) returns (out: seq<Gen>, complaints: nat)
    ensures |out| == |gens|
    ensures forall i :: 0 <= i < |gens| ==> out[i] == Repair(sy, GenNames(gens), gens[i])
    ensures complaints == 0 <==> forall i :: 0 <= i < |gens| ==> NoComplaint(sy, GenNames(gens), gens[i])
  {
    hide FallsOff, Follows, HasFollower;
    var chained, stumps := ChainStumps(sy, gens);
    var missing;
    out, missing := RerouteAll(sy, chained);
    complaints := stumps + missing;
    forall i | 0 <= i < |gens| && complaints == 0 ensures NoComplaint(sy, GenNames(gens), gens[i]) {
      assert AllAvailable(sy, chained[i]);
    }
  }

  /** What the scripts need to say nothing about g, in the terms of the tables: a function behind its end if that is
      alive, and one at every target out of its span. */
  ghost predicate Complete(sy: Symbols, names: set<Name>, g: Gen) {
    && (FallsOff(g) ==> HasFollower(sy, names, g))
    && forall t: nat :: Strays(g.body, t) ==> ReachableIn(sy, g.name, t)
  }

  lemma NoComplaintIs(sy: Symbols, names: set<Name>, g: Gen)
    ensures NoComplaint(sy, names, g) <==> Complete(sy, names, g)
  {
    VerdictIs(sy, names, g);
    var chained := Chain(g, StumpVerdict(sy, names, g));
    forall t: nat ensures t in BadTargets(chained.body) <==> Strays(g.body, t) {
      BadTargetsStray(chained.body, t);
      ChainedStrays(g.body, chained.body, t);
    }
    forall t: nat ensures HasFunction(sy, g.name, t) <==> ReachableIn(sy, g.name, t) {
      HasFunctionIs(sy, g.name, t);
    }
  }

  /** A chained call decodes nothing. */
  lemma ChainedStrays(body: Body, longer: Body, t: nat)
    requires longer == body || (|longer| == |body| + 1 && longer[..|body|] == body && longer[|body|].ChainReturn?)
    ensures Strays(longer, t) <==> Strays(body, t)
  {
    assert forall i :: 0 <= i < |body| ==> longer[i] == body[i];
  }

  lemma FollowerStaysLast(sy: Symbols, names: set<Name>, g: Gen, fn: Name)
    requires FallsOff(g) && Follows(sy, names, g, fn)
    ensures var r := Repair(sy, names, g).body; r != [] && r[|r| - 1] == ChainReturn(fn)
  {
    hide FallsOff, Follows, StumpVerdict;
    VerdictIs(sy, names, g);
    var chained := Chain(g, StumpVerdict(sy, names, g));
    var ts := FixableTargets(sy, chained);
    assert Retarget(chained.body, ts)[|g.body|] == ChainReturn(fn);
    if EntryOf(g.name).Some? {
      MoveKeepsLast(Retarget(chained.body, ts), EntryOf(g.name).value);
    }
  }

  lemma MoveKeepsLast(body: Body, a: nat)
    requires body != [] && !body[|body| - 1].Mark?
    ensures var r := MoveEntryLabel(body, a); r != [] && r[|r| - 1] == body[|body| - 1]
  {
    hide IndexOfMark, IndexOfInsn;
    var m, i := IndexOfMark(body, L(a)), IndexOfInsn(body, a);
    if m < |body| && i <= m {
      assert m < |body| - 1;
      var front := body[..i] + [Mark(L(a))] + body[i..m];
      assert (front + body[m + 1..])[|body| - 1] == body[|body| - 1];
    }
  }

  ghost predicate NoComplaint(sy: Symbols, names: set<Name>, g: Gen) {
    var v := StumpVerdict(sy, names, g);
    (v.Kept? || v.Chained?) && AllAvailable(sy, Chain(g, v))
  }

  ghost function Emitted(code: Code, f: Fn): Gen
    requires |f.stray| == f.count
  {
    Gen(f.name, Raw(code, f, 0))
  }

  // ---------------------------------------------------------------- what the scripts rely on

  /** Symbols and static names of the section belong to functions generated from it. */
  ghost predicate SymbolsSound(sy: Symbols, names: set<Name>, fns: set<Fn>, sec: nat) {
    && (forall a: nat :: (sec, a) in sy.bySecVram ==> Enters(fns, sy.bySecVram[(sec, a)], a))
    && (forall a: nat :: Static(sec, a) in names ==> Enters(fns, Static(sec, a), a))
  }

  /** A name leads to the section of its function, and the address it spells is the function's. */
  ghost predicate NameSound(sy: Symbols, f: Fn) {
    && (f.name in sy.name2sec ==> sy.name2sec[f.name] == f.section)
    && (f.name.Static? ==> f.name.section == f.section)
    && (f.name.FuncIn? ==> f.name.section == f.section)
    && (f.name.Func? || f.name.Static? ==> f.name.addr == f.lo)
  }

  /** fix_backbranches always calls `func_X`: that is the right function only if the section's
      symbol at X is spelled so. */
  ghost predicate PlainlyNamedTargets(code: Code, sy: Symbols, f: Fn)
    requires f.count > 0
  {
    forall t: nat :: IsTarget(code, f, t) && !Window(f, t) && (f.section, t) in sy.bySecVram ==>
      sy.bySecVram[(f.section, t)] == Func(t)
  }

  /** fix_selfentry only matches `func_X` and `static_S_X`. */
  ghost predicate ReadableEntry(code: Code, f: Fn) {
    IsTarget(code, f, f.lo) ==> f.name.Func? || f.name.Static?
  }

  // ---------------------------------------------------------------- the verdict survives the rewriting

  lemma {:induction false} ScanLabels(a: Body, r: Body, reachable: bool, m: Mode)
    requires forall i :: 0 <= i < |a| ==> a[i].Mark? && (m.every || !a[i].lab.Other?)
    ensures Scan(a + r, reachable, 0, m) == Scan(r, reachable || a != [], 0, m)
  {
    if a == [] {
      assert a + r == r;
    } else {
      assert (a + r)[1..] == a[1..] + r;
      ScanLabels(a[1..], r, true, m);
    }
  }

  lemma {:induction false} ScanNotes(a: Body, r: Body, reachable: bool, m: Mode)
    requires forall i :: 0 <= i < |a| ==> a[i].Note?
    ensures Scan(a + r, reachable, 0, m) == Scan(r, reachable, 0, m)
  {
    if a == [] {
      assert a + r == r;
    } else {
      assert (a + r)[1..] == a[1..] + r;
      ScanNotes(a[1..], r, reachable, m);
    }
  }

  lemma ScanOne(line: Line, r: Body, reachable: bool, m: Mode)
    ensures Scan([line] + r, reachable, 0, m) == Scan(r, AliveAfter(line, reachable, 0, m), DepthAfter(line, 0), m)
  {
    assert ([line] + r)[1..] == r;
  }

  function UnitAlive(i: Instr, reachable: bool): bool {
    reachable && (i.Plain? || i.Branch?)
  }

  /** Any number of decoded lines, calls and then an exit. */
  lemma {:induction false} ScanStraight(u: Body, r: Body, reachable: bool, m: Mode)
    requires u != [] && forall i :: 0 <= i < |u| - 1 ==> u[i].Insn? || u[i].CallTo?
    requires var x := u[|u| - 1]; x.Goto? || x.Return? || x.ChainReturn? || (m.tails && x.TailCall?)
    ensures Scan(u + r, reachable, 0, m) == Scan(r, false, 0, m)
  {
    assert (u + r)[1..] == u[1..] + r;
    if |u| > 1 {
      ScanStraight(u[1..], r, reachable, m);
    } else {
      assert u[1..] + r == r;
    }
  }

  lemma ScanBranchUnit(u: Body, r: Body, reachable: bool, m: Mode)
    requires |u| == 5 && u[0].Insn? && u[1].IfOpen? && u[2].Insn? && u[4].Close?
    requires u[3].Goto? || u[3].TailCall?
    ensures Scan(u + r, reachable, 0, m) == Scan(r, reachable, 0, m)
  {
    var w := u + r;
    assert w[1..][1..][1..][1..][1..] == r;
    assert Scan(w, reachable, 0, m) == Scan(w[1..], reachable, 0, m) == Scan(w[1..][1..], reachable, 1, m)
        == Scan(w[1..][1..][1..], reachable, 1, m) == Scan(w[1..][1..][1..][1..], reachable, 1, m);
  }

  lemma ScanLikelyUnit(u: Body, r: Body, reachable: bool, m: Mode)
    requires |u| == 6 && u[0].Insn? && u[1].IfOpen? && u[2].Insn? && u[4].Close? && u[5].Goto?
    requires u[3].Goto? || u[3].TailCall?
    ensures Scan(u + r, reachable, 0, m) == Scan(r, false, 0, m)
  {
    assert u + r == u[..5] + ([u[5]] + r);
    ScanBranchUnit(u[..5], [u[5]] + r, reachable, m);
    ScanOne(u[5], r, reachable, m);
  }

  lemma ScanUnit(code: Code, a: nat, r: Body, reachable: bool, m: Mode)
    ensures Scan(Unit(code, a) + r, reachable, 0, m) == Scan(r, UnitAlive(code(a), reachable), 0, m)
  {
    var u := Unit(code, a);
    match code(a)
    case Plain => ScanOne(u[0], r, reachable, m);
    case Branch(_) => ScanBranchUnit(u, r, reachable, m);
    case Likely(_) => ScanLikelyUnit(u, r, reachable, m);
    case _ => ScanStraight(u, r, reachable, m);
  }

  lemma ScanFixedUnit(code: Code, f: Fn, a: nat, r: Body, reachable: bool)
    requires f.count > 0
    ensures Scan(FixedUnit(code, f, a) + r, reachable, 0, FLOW) == Scan(r, UnitAlive(code(a), reachable), 0, FLOW)
  {
    var u := FixedUnit(code, f, a);
    match code(a)
    case Plain => ScanOne(u[0], r, reachable, FLOW);
    case Branch(_) => ScanBranchUnit(u, r, reachable, FLOW);
    case Likely(_) => ScanLikelyUnit(u, r, reachable, FLOW);
    case _ => ScanStraight(u, r, reachable, FLOW);
  }

  /** The label behind instruction i that belongs to the one before it revives the scan. */
  predicate LinkRevives(code: Code, f: Fn, i: nat, m: Mode) {
    i > 0 && (code(Addr(f, i - 1)).Call? || (m.every && code(Addr(f, i - 1)).Likely?))
  }

  lemma ScanTrail(code: Code, f: Fn, i: nat, r: Body, b: bool, m: Mode)
    ensures Scan(Trail(code, f, i) + r, b, 0, m) ==
            Scan(r, b || LinkRevives(code, f, i, m) || EndMark(code, f, i) != [], 0, m)
  {
    var l, e := LinkMark(code, f, i), EndMark(code, f, i);
    Assoc(l, e, r);
    if l != [] {
      ScanOne(l[0], e + r, b, m);
    } else {
      assert l + (e + r) == e + r;
    }
    ScanLabels(e, r, b || LinkRevives(code, f, i, m), m);
  }

  /** One of the labels behind instruction i is of a spelling the script knows. */
  ghost predicate KnownBehind(code: Code, f: Fn, i: nat)
    requires |f.stray| == f.count && i < f.count
  {
    || (i > 0 && code(Addr(f, i - 1)).Call?)
    || EndMark(code, f, i) != []
    || EntryMark(code, f, i) != []
    || f.stray[i] != []
  }

  /** Whether the scan is alive behind instruction i, given whether it was in front of it. */
  ghost predicate RawAlive(code: Code, f: Fn, i: nat, b: bool, m: Mode)
    requires |f.stray| == f.count && i < f.count
  {
    || UnitAlive(code(Addr(f, i)), b || LocalMark(code, f, i) != [])
    || KnownBehind(code, f, i)
    || LinkRevives(code, f, i, m)
  }

  ghost predicate FixedAlive(code: Code, f: Fn, i: nat, b: bool) {
    || UnitAlive(code(Addr(f, i)), b || IsTarget(code, f, Addr(f, i)))
    || LinkRevives(code, f, i, FLOW)
    || EndMark(code, f, i) != []
  }

  lemma RawScanStep(code: Code, f: Fn, i: nat, b: bool, m: Mode)
    requires |f.stray| == f.count && i < f.count
    ensures Scan(Raw(code, f, i), b, 0, m) == Scan(Raw(code, f, i + 1), RawAlive(code, f, i, b, m), 0, m)
  {
    var l, u, a := LocalMark(code, f, i), Unit(code, Addr(f, i)), Trail(code, f, i);
    var n, s, e := EntryMark(code, f, i), Marks(f.stray[i]), Raw(code, f, i + 1);
    ScanLabels(l, u + (a + (n + (s + e))), b, m);
    ScanUnit(code, Addr(f, i), a + (n + (s + e)), b || l != [], m);
    var b1 := UnitAlive(code(Addr(f, i)), b || l != []);
    ScanTrail(code, f, i, n + (s + e), b1, m);
    var b2 := b1 || LinkRevives(code, f, i, m) || EndMark(code, f, i) != [];
    ScanLabels(n, s + e, b2, m);
    ScanLabels(s, e, b2 || n != [], m);
  }

  lemma FixedScanStep(code: Code, f: Fn, i: nat, b: bool, tail: Body)
    requires |f.stray| == f.count && i < f.count
    ensures Scan(Fixed(code, f, i, tail), b, 0, FLOW) ==
            Scan(Fixed(code, f, i + 1, tail), FixedAlive(code, f, i, b), 0, FLOW)
  {
    var l, u, a := EveryMark(code, f, i), FixedUnit(code, f, Addr(f, i)), Trail(code, f, i);
    var n, e := Notes(|f.stray[i]|), Fixed(code, f, i + 1, tail);
    ScanLabels(l, u + (a + (n + e)), b, FLOW);
    ScanFixedUnit(code, f, Addr(f, i), a + (n + e), b || l != []);
    ScanTrail(code, f, i, n + e, UnitAlive(code(Addr(f, i)), b || l != []), FLOW);
    ScanNotes(n, e, FixedAlive(code, f, i, b), FLOW);
  }

  ghost function FixedVerdict(code: Code, f: Fn, i: nat, b: bool): bool
    decreases f.count - i
  {
    if i >= f.count then b else FixedVerdict(code, f, i + 1, FixedAlive(code, f, i, b))
  }

  ghost function RawVerdict(code: Code, f: Fn, i: nat, b: bool, m: Mode): bool
    requires |f.stray| == f.count
    decreases f.count - i
  {
    if i >= f.count then b else RawVerdict(code, f, i + 1, RawAlive(code, f, i, b, m), m)
  }

  lemma {:induction false} FixedScan(code: Code, f: Fn, i: nat, b: bool)
    requires |f.stray| == f.count
    ensures Scan(Fixed(code, f, i, []), b, 0, FLOW) == FixedVerdict(code, f, i, b)
    decreases f.count - i
  {
    hide FixedUnit, EveryMark, Trail, FixedAlive;
    if i >= f.count {
      var none := Fixed(code, f, i, []);
      assert none == [];
      assert Scan(none, b, 0, FLOW) == b;
    } else {
      var c := FixedAlive(code, f, i, b);
      FixedScan(code, f, i + 1, c);
      FixedScanStep(code, f, i, b, []);
      FixedVerdictStep(code, f, i, b, c);
    }
  }

  lemma FixedVerdictStep(code: Code, f: Fn, i: nat, b: bool, c: bool)
    requires i < f.count && c == FixedAlive(code, f, i, b)
    ensures FixedVerdict(code, f, i, b) == FixedVerdict(code, f, i + 1, c)
  {
  }

  lemma {:induction false} RawScan(code: Code, f: Fn, i: nat, b: bool, m: Mode)
    requires |f.stray| == f.count
    ensures Scan(Raw(code, f, i), b, 0, m) == RawVerdict(code, f, i, b, m)
    decreases f.count - i
  {
    hide Unit, LocalMark, Trail, EntryMark, RawAlive, LinkMark;
    if i < f.count {
      var c := RawAlive(code, f, i, b, m);
      RawScan(code, f, i + 1, c, m);
      RawScansAlike(code, f, i, b, c, m);
    }
  }

  lemma RawScansAlike(code: Code, f: Fn, i: nat, b: bool, c: bool, m: Mode)
    requires |f.stray| == f.count && i < f.count && c == RawAlive(code, f, i, b, m)
    requires Scan(Raw(code, f, i + 1), c, 0, m) == RawVerdict(code, f, i + 1, c, m)
    ensures Scan(Raw(code, f, i), b, 0, m) == RawVerdict(code, f, i, b, m)
  {
    RawScanStep(code, f, i, b, m);
    RawVerdictStep(code, f, i, b, c, m);
  }

  lemma RawVerdictStep(code: Code, f: Fn, i: nat, b: bool, c: bool, m: Mode)
    requires |f.stray| == f.count && i < f.count && c == RawAlive(code, f, i, b, m)
    ensures RawVerdict(code, f, i, b, m) == RawVerdict(code, f, i + 1, c, m)
  {
  }

  /** The state of the script's scan in front of instruction i. */
  lemma {:induction false} VerdictUpTo(code: Code, f: Fn, i: nat) returns (b: bool)
    requires |f.stray| == f.count && i <= f.count
    ensures RawVerdict(code, f, i, b, SCRIPT) == RawVerdict(code, f, 0, true, SCRIPT)
    ensures i > 0 && KnownBehind(code, f, i - 1) ==> b
  {
    if i == 0 {
      b := true;
    } else {
      var c := VerdictUpTo(code, f, i - 1);
      b := RawAlive(code, f, i - 1, c, SCRIPT);
      RawVerdictStep(code, f, i - 1, c, b, SCRIPT);
    }
  }

  lemma {:induction false} VerdictsOrdered(code: Code, f: Fn, i: nat, b: bool, b': bool)
    requires |f.stray| == f.count && (i == 0 ==> b) && (b' ==> b)
    ensures FixedVerdict(code, f, i, b') ==> RawVerdict(code, f, i, b, EVERY)
    decreases f.count - i
  {
    if i < f.count {
      VerdictsOrdered(code, f, i + 1, RawAlive(code, f, i, b, EVERY), FixedAlive(code, f, i, b'));
    }
  }

  /** If the flow can leave the repaired body at its end, a scan of the emitted body that counts every label says so. */
  lemma RepairKeepsVerdict(code: Code, f: Fn)
    requires |f.stray| == f.count
    ensures Scan(Fixed(code, f, 0, []), true, 0, FLOW) ==> Scan(Raw(code, f, 0), true, 0, EVERY)
  {
    FixedScan(code, f, 0, true);
    RawScan(code, f, 0, true, EVERY);
    VerdictsOrdered(code, f, 0, true, true);
  }

  // ---------------------------------------------------------------- the label the script does not know

  /** A dead scan passes instruction i and is still dead, and an alive one is still alive. */
  ghost predicate Unmoved(code: Code, f: Fn, i: nat)
    requires |f.stray| == f.count && i < f.count
  {
    && (code(Addr(f, i)).Plain? || code(Addr(f, i)).Branch?)
    && LocalMark(code, f, i) == []
    && !KnownBehind(code, f, i)
  }

  ghost predicate UnmovedFrom(code: Code, f: Fn, i: nat)
    requires |f.stray| == f.count
  {
    forall k: nat :: i <= k < f.count ==> Unmoved(code, f, k)
  }

  /** Instruction j is a likely branch, and from its goto on its own skip label is the only label, and nothing
      leaves the flow. */
  ghost predicate MisjudgedAt(code: Code, f: Fn, j: nat)
    requires |f.stray| == f.count
  {
    j < f.count && code(Addr(f, j)).Likely? && !KnownBehind(code, f, j) && UnmovedFrom(code, f, j + 1)
  }

  ghost predicate Misjudged(code: Code, f: Fn)
    requires |f.stray| == f.count
  {
    exists j: nat :: MisjudgedAt(code, f, j)
  }

  ghost predicate MisjudgedFrom(code: Code, f: Fn, i: nat)
    requires |f.stray| == f.count
  {
    exists j: nat :: i <= j && MisjudgedAt(code, f, j)
  }

  /** In front of instruction i the script's scan is dead, and the one that counts every label is alive or will be
      behind it. */
  predicate Apart(code: Code, f: Fn, i: nat, dead: bool, b: bool) {
    !dead && (b || (0 < i < f.count && code(Addr(f, i - 1)).Likely?))
  }

  lemma ApartStep(code: Code, f: Fn, i: nat, b: bool, b': bool)
    requires WellDecoded(code, f) && i < f.count && (b ==> b')
    requires i == 0 ==> b
    ensures var c, c' := RawAlive(code, f, i, b, SCRIPT), RawAlive(code, f, i, b', EVERY);
            (c ==> c') &&
            (Apart(code, f, i + 1, c, c') <==> (Apart(code, f, i, b, b') && Unmoved(code, f, i)) ||
                                               (code(Addr(f, i)).Likely? && !KnownBehind(code, f, i)))
  {
    assert SlotFollows(code, f, i);
    if i > 0 {
      assert SlotFollows(code, f, i - 1);
    }
  }

  lemma UnmovedFromStep(code: Code, f: Fn, i: nat)
    requires |f.stray| == f.count && i < f.count
    ensures UnmovedFrom(code, f, i) <==> Unmoved(code, f, i) && UnmovedFrom(code, f, i + 1)
    ensures MisjudgedFrom(code, f, i) <==> MisjudgedAt(code, f, i) || MisjudgedFrom(code, f, i + 1)
  {
  }

  lemma {:induction false} VerdictsDiffer(code: Code, f: Fn, i: nat, b: bool, b': bool)
    requires WellDecoded(code, f) && i <= f.count && (b ==> b')
    requires i == 0 ==> b
    ensures RawVerdict(code, f, i, b', EVERY) && !RawVerdict(code, f, i, b, SCRIPT) <==>
            (Apart(code, f, i, b, b') && UnmovedFrom(code, f, i)) || MisjudgedFrom(code, f, i)
    decreases f.count - i
  {
    if i < f.count {
      ApartStep(code, f, i, b, b');
      VerdictsDiffer(code, f, i + 1, RawAlive(code, f, i, b, SCRIPT), RawAlive(code, f, i, b', EVERY));
      UnmovedFromStep(code, f, i);
    }
  }

  /** The script calls the end of an emitted body dead although it is alive once every label counts exactly if the
      last thing that moves the verdict is the skip label of a likely branch. */
  lemma MisjudgedIff(code: Code, f: Fn)
    requires WellDecoded(code, f)
    ensures Misjudged(code, f) <==> !Scan(Raw(code, f, 0), true, 0, SCRIPT) && Scan(Raw(code, f, 0), true, 0, EVERY)
  {
    RawScan(code, f, 0, true, SCRIPT);
    RawScan(code, f, 0, true, EVERY);
    VerdictsDiffer(code, f, 0, true, true);
    assert MisjudgedFrom(code, f, 0) <==> Misjudged(code, f);
  }

  // ---------------------------------------------------------------- complaints about an emitted function

  /** The script's scan is alive in front of instruction j whatever came before: the entry, or a label it knows. */
  ghost predicate Resumes(code: Code, f: Fn, j: nat)
    requires |f.stray| == f.count && j <= f.count
  {
    j == 0 || KnownBehind(code, f, j - 1) || (j < f.count && IsTarget(code, f, Addr(f, j)))
  }

  /** From instruction i on nothing leaves for good. */
  ghost predicate PassesFrom(code: Code, f: Fn, i: nat) {
    forall k: nat {:trigger Addr(f, k)} :: i <= k < f.count ==> code(Addr(f, k)).Plain? || code(Addr(f, k)).Branch?
  }

  /** The scan resumes somewhere, and from there only plain instructions and branches follow. */
  ghost predicate EndAlive(code: Code, f: Fn)
    requires |f.stray| == f.count
  {
    exists j: nat :: j <= f.count && Resumes(code, f, j) && PassesFrom(code, f, j)
  }

  ghost predicate AliveFrom(code: Code, f: Fn, i: nat, b: bool)
    requires |f.stray| == f.count && i <= f.count
  {
    || ((b || LocalMark(code, f, i) != []) && i < f.count && PassesFrom(code, f, i))
    || (b && i == f.count)
    || exists j: nat :: i < j <= f.count && Resumes(code, f, j) && PassesFrom(code, f, j)
  }

  lemma AliveFromStep(code: Code, f: Fn, i: nat, b: bool)
    requires |f.stray| == f.count && i < f.count
    ensures AliveFrom(code, f, i, b) <==> AliveFrom(code, f, i + 1, RawAlive(code, f, i, b, SCRIPT))
  {
    hide KnownBehind, IsTarget;
    var c := RawAlive(code, f, i, b, SCRIPT);
    CallIsKnown(code, f, i);
    assert PassesFrom(code, f, i) <==> UnitAlive(code(Addr(f, i)), true) && PassesFrom(code, f, i + 1);
    if AliveFrom(code, f, i + 1, c) && KnownBehind(code, f, i) && PassesFrom(code, f, i + 1) {
      assert Resumes(code, f, i + 1);
    }
    if j: nat :| i < j <= f.count && Resumes(code, f, j) && PassesFrom(code, f, j) {
      if j == i + 1 && i + 1 == f.count {
        assert KnownBehind(code, f, i);
      }
    }
  }

  lemma CallIsKnown(code: Code, f: Fn, i: nat)
    requires |f.stray| == f.count && i < f.count
    ensures LinkRevives(code, f, i, SCRIPT) ==> KnownBehind(code, f, i)
  {
  }

  lemma {:induction false} RawVerdictIs(code: Code, f: Fn, i: nat, b: bool)
    requires |f.stray| == f.count && i <= f.count
    ensures RawVerdict(code, f, i, b, SCRIPT) <==> AliveFrom(code, f, i, b)
    decreases f.count - i
  {
    hide RawAlive, AliveFrom;
    if i < f.count {
      var c := RawAlive(code, f, i, b, SCRIPT);
      RawVerdictIs(code, f, i + 1, c);
      AliveFromStep(code, f, i, b);
      RawVerdictStep(code, f, i, b, c, SCRIPT);
    } else {
      AliveAtEnd(code, f, b);
    }
  }

  lemma AliveAtEnd(code: Code, f: Fn, b: bool)
    requires |f.stray| == f.count
    ensures AliveFrom(code, f, f.count, b) <==> b
  {
  }

  /** When the script calls the end of an emitted body alive. */
  lemma EndAliveIff(code: Code, f: Fn)
    requires |f.stray| == f.count
    ensures Scan(Raw(code, f, 0), true, 0, SCRIPT) <==> EndAlive(code, f)
  {
    RawScan(code, f, 0, true, SCRIPT);
    RawVerdictIs(code, f, 0, true);
    assert Resumes(code, f, 0);
  }

  /** fn starts at the address right behind the span, in the section of f. */
  ghost predicate StartsBehind(sy: Symbols, names: set<Name>, f: Fn, fn: Name) {
    exists sec: nat :: InSection(sy, f.name, sec) && StartsAt(sy, names, sec, Next(f), fn)
  }

  /** An emitted function is looked after exactly if its end is alive, is chained to what starts behind its span, and
      the scripts say nothing about it exactly if that is there whenever it is needed, and every branch out of the
      span leads to a function of the dump. */
  lemma EmittedReport(code: Code, sy: Symbols, names: set<Name>, f: Fn)
    requires WellDecoded(code, f)
    ensures FallsOff(Emitted(code, f)) <==> EndAlive(code, f)
    ensures forall fn :: Follows(sy, names, Emitted(code, f), fn) <==> StartsBehind(sy, names, f, fn)
    ensures Complete(sy, names, Emitted(code, f)) <==>
            && (EndAlive(code, f) ==> exists fn :: StartsBehind(sy, names, f, fn))
            && forall t: nat :: IsTarget(code, f, t) && !Window(f, t) ==> ReachableIn(sy, f.name, t)
  {
    hide Raw, LastDecoded, Strays, EndAlive, IsTarget, InSection, StartsAt, ReachableIn;
    EndAliveIff(code, f);
    EmittedLast(code, f);
    forall t: nat ensures Strays(Raw(code, f, 0), t) <==> IsTarget(code, f, t) && !Window(f, t) {
      EmittedStrays(code, f, t);
    }
    FollowersBehind(sy, names, f, Emitted(code, f));
  }

  lemma EmittedLast(code: Code, f: Fn)
    requires WellDecoded(code, f)
    ensures LastDecoded(Raw(code, f, 0), Last(f)) && forall a: nat :: LastDecoded(Raw(code, f, 0), a) ==> a == Last(f)
  {
    hide LastDecoded, Raw;
    RawAddrs(code, f, 0);
    LastAddr(Raw(code, f, 0), Last(f));
    forall a: nat ensures LastDecoded(Raw(code, f, 0), a) ==> a == Last(f) {
      LastAddr(Raw(code, f, 0), a);
    }
  }

  lemma EmittedStrays(code: Code, f: Fn, t: nat)
    requires WellDecoded(code, f)
    ensures Strays(Raw(code, f, 0), t) <==> IsTarget(code, f, t) && !Window(f, t)
  {
    hide Raw, Strays, IsTarget;
    RawBadTargets(code, f, []);
    assert Raw(code, f, 0) + [] == Raw(code, f, 0);
    BadTargetsStray(Raw(code, f, 0), t);
  }

  lemma FollowersBehind(sy: Symbols, names: set<Name>, f: Fn, g: Gen)
    requires f.count > 0 && g.name == f.name
    requires LastDecoded(g.body, Last(f)) && forall a: nat :: LastDecoded(g.body, a) ==> a == Last(f)
    ensures forall fn :: Follows(sy, names, g, fn) <==> StartsBehind(sy, names, f, fn)
  {
    hide LastDecoded, InSection, StartsAt;
    assert Last(f) + 4 == Next(f);
  }

  // ---------------------------------------------------------------- the pipeline on one emitted function

  function TailFor(v: Verdict): Body {
    if v.Chained? then [ChainReturn(v.successor)] else []
  }

  lemma RepairedShape(code: Code, sy: Symbols, names: set<Name>, f: Fn)
    requires WellDecoded(code, f) && NameSound(sy, f) && ReadableEntry(code, f)
    requires NoComplaint(sy, names, Emitted(code, f))
    ensures var g := Emitted(code, f);
            Repair(sy, names, g) == Gen(f.name, Fixed(code, f, 0, TailFor(StumpVerdict(sy, names, g))))
  {
    var g := Emitted(code, f);
    var tail := TailFor(StumpVerdict(sy, names, g));
    var chained := Chain(g, StumpVerdict(sy, names, g));
    assert chained.body == g.body + tail by {
      assert g.body + [] == g.body;
    }
    RawBadTargets(code, f, tail);
    var ts := FixableTargets(sy, chained);
    assert ts == BadTargets(chained.body);
    RawRetargeted(code, f, 0, tail, ts);
    HalfRepairedEntry(code, f, tail);
    if EntryOf(f.name).None? {
      NoEntryTarget(code, f, 0, tail);
    }
  }

  /** Under a name fix_selfentry cannot read, the entry label stays where it was emitted. */
  lemma ShapeWithoutEntryRepair(code: Code, sy: Symbols, names: set<Name>, f: Fn)
    requires WellDecoded(code, f) && NameSound(sy, f) && EntryOf(f.name).None?
    requires NoComplaint(sy, names, Emitted(code, f))
    ensures Repair(sy, names, Emitted(code, f)).body ==
            Half(code, f, 0, TailFor(StumpVerdict(sy, names, Emitted(code, f))))
  {
    var g := Emitted(code, f);
    var tail := TailFor(StumpVerdict(sy, names, g));
    var chained := Chain(g, StumpVerdict(sy, names, g));
    assert chained.body == g.body + tail by {
      assert g.body + [] == g.body;
    }
    RawBadTargets(code, f, tail);
    var ts := FixableTargets(sy, chained);
    assert ts == BadTargets(chained.body);
    RawRetargeted(code, f, 0, tail, ts);
  }

  lemma ChainedToNext(code: Code, sy: Symbols, names: set<Name>, fns: set<Fn>, f: Fn)
    requires WellDecoded(code, f) && NameSound(sy, f) && SymbolsSound(sy, names, fns, f.section)
    requires StumpVerdict(sy, names, Emitted(code, f)).Chained?
    ensures Enters(fns, StumpVerdict(sy, names, Emitted(code, f)).successor, Next(f))
  {
    RawAddrs(code, f, 0);
  }

  lemma KeptMeansDead(code: Code, sy: Symbols, names: set<Name>, f: Fn)
    requires WellDecoded(code, f) && StumpVerdict(sy, names, Emitted(code, f)).Kept?
    ensures !Scan(Raw(code, f, 0), true, 0, SCRIPT)
  {
    RawAddrs(code, f, 0);
  }

  lemma KeptNeverFalls(code: Code, sy: Symbols, names: set<Name>, f: Fn)
    requires WellDecoded(code, f) && !Misjudged(code, f)
    requires StumpVerdict(sy, names, Emitted(code, f)).Kept?
    ensures !Scan(Fixed(code, f, 0, []), true, 0, FLOW)
  {
    KeptMeansDead(code, sy, names, f);
    MisjudgedIff(code, f);
    RepairKeepsVerdict(code, f);
  }

  /** Everything the section must satisfy before the scripts run, all of it readable off the symbol
      tables and the decoded code. */
  ghost predicate Repairable(code: Code, sy: Symbols, names: set<Name>, fns: set<Fn>, f: Fn) {
    && WellDecoded(code, f)
    && NameSound(sy, f)
    && SymbolsSound(sy, names, fns, f.section)
    && PlainlyNamedTargets(code, sy, f)
    && ReadableEntry(code, f)
    && EndLabelLast(code, f)
    && !Misjudged(code, f)
  }

  ghost predicate RepairedWithoutComplaint(code: Code, sy: Symbols, names: set<Name>, p: Program, f: Fn)
    requires |f.stray| == f.count
  {
    && NoComplaint(sy, names, Emitted(code, f))
    && f.name in p
    && p[f.name] == Repair(sy, names, Emitted(code, f)).body
  }

  ghost predicate RepairedSection(code: Code, sy: Symbols, names: set<Name>, fns: set<Fn>, p: Program) {
    forall f {:trigger Repairable(code, sy, names, fns, f)} :: f in fns ==>
      && Repairable(code, sy, names, fns, f)
      && RepairedWithoutComplaint(code, sy, names, p, f)
      && CallsSound(code, fns, p, f)
  }

  ghost function Chains(code: Code, sy: Symbols, names: set<Name>, fns: set<Fn>): map<Fn, Name> {
    map f | f in fns && |f.stray| == f.count && StumpVerdict(sy, names, Emitted(code, f)).Chained? ::
        StumpVerdict(sy, names, Emitted(code, f)).successor
  }

  /** An exit that was not complained about leads to a symbol of the section. */
  lemma ExitKnown(code: Code, sy: Symbols, names: set<Name>, f: Fn, t: nat)
    requires WellDecoded(code, f) && NameSound(sy, f) && NoComplaint(sy, names, Emitted(code, f))
    requires IsTarget(code, f, t) && !Window(f, t)
    ensures (f.section, t) in sy.bySecVram
  {
    var g := Emitted(code, f);
    var v := StumpVerdict(sy, names, g);
    RawBadTargets(code, f, TailFor(v));
    assert g.body + [] == g.body;
    assert Chain(g, v).body == g.body + TailFor(v);
    assert t in BadTargets(Chain(g, v).body);
    assert HasFunction(sy, f.name, t);
  }

  lemma ExitsLead(code: Code, sy: Symbols, names: set<Name>, fns: set<Fn>, f: Fn, t: nat)
    requires Repairable(code, sy, names, fns, f) && NoComplaint(sy, names, Emitted(code, f))
    requires IsTarget(code, f, t) && !Window(f, t)
    ensures Enters(fns, Func(t), t)
  {
    ExitKnown(code, sy, names, f, t);
  }

  lemma RepairLinks(code: Code, sy: Symbols, names: set<Name>, fns: set<Fn>, p: Program, w: World, f: Fn)
    requires Repairable(code, sy, names, fns, f) && RepairedWithoutComplaint(code, sy, names, p, f)
    requires CallsSound(code, fns, p, f)
    requires w.code == code && w.fns == fns && w.p == p
    requires f in w.chains <==> StumpVerdict(sy, names, Emitted(code, f)).Chained?
    requires f in w.chains ==> w.chains[f] == StumpVerdict(sy, names, Emitted(code, f)).successor
    ensures Linked(w, f)
  {
    RepairedShape(code, sy, names, f);
    if f in w.chains {
      ChainedToNext(code, sy, names, fns, f);
    } else {
      KeptNeverFalls(code, sy, names, f);
    }
    forall t: nat | IsTarget(code, f, t) && !Window(f, t) ensures Enters(fns, Func(t), t) {
      ExitsLead(code, sy, names, fns, f, t);
    }
  }

  /** After the three scripts report nothing, calling any function of the section visits exactly the addresses
      its MIPS code visits, in the functions it calls too, up to its return, whatever the branch outcomes. */
  lemma RepairedCodeMeansTheMachineCode(code: Code, sy: Symbols, names: set<Name>, fns: set<Fn>, p: Program,
          cond: seq<nat> -> bool, f: Fn)
    requires RepairedSection(code, sy, names, fns, p) && f in fns
    ensures SameBehaviour(World(code, fns, p, Chains(code, sy, names, fns), cond), f)
  {
    var w := World(code, fns, p, Chains(code, sy, names, fns), cond);
    forall g | g in fns ensures Linked(w, g) {
      assert Repairable(code, sy, names, fns, g);
      RepairLinks(code, sy, names, fns, p, w, g);
    }
    LinkedRunsTheMachine(w, f);
  }
}

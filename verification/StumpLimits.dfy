/** Where fix_stumps keeps a body that can fall off its closing brace: it does not know the `skip_N`
    label N64Recomp emits behind the delay slot of a branch-likely. */
module StumpLimits {
  import opened Wrappers
  import opened RecompiledCode
  import opened StumpRepair
  import opened BranchRepair
  import opened EntryRepair
  import opened Recompiler
  import opened RepairedProgram
  import opened RepairPipeline
  import opened FlowGraph
  import opened FlowPaths

  // ---------------------------------------------------------------- the verdict along the flow

  /** Whether a scan of the repaired lines that only counts labels of known spelling is alive behind instruction i. */
  ghost predicate KnownAlive(code: Code, f: Fn, i: nat, b: bool, half: bool) {
    || UnitAlive(code(Addr(f, i)), b || Front(code, f, i, half) != [])
    || LinkRevives(code, f, i, KNOWN)
    || EndMark(code, f, i) != []
    || LateEntry(code, f, i, half) != []
  }

  /** The end of that scan, from instruction i on. */
  ghost function KnownVerdict(code: Code, f: Fn, i: nat, b: bool, half: bool): bool
    decreases f.count - i
  {
    if i >= f.count then b else KnownVerdict(code, f, i + 1, KnownAlive(code, f, i, b, half), half)
  }

  lemma KnownStep(code: Code, f: Fn, i: nat, b: bool, half: bool, c: bool)
    requires i < f.count && c == KnownAlive(code, f, i, b, half)
    ensures KnownVerdict(code, f, i, b, half) == KnownVerdict(code, f, i + 1, c, half)
  {
  }

  lemma AliveOrdered(code: Code, f: Fn, i: nat, b: bool, b': bool, half: bool)
    requires |f.stray| == f.count && i < f.count && (i == 0 ==> b) && (b' ==> b)
    ensures KnownAlive(code, f, i, b', half) ==> RawAlive(code, f, i, b, SCRIPT)
  {
  }

  lemma {:induction false} KnownOrdered(code: Code, f: Fn, i: nat, b: bool, b': bool, half: bool)
    requires |f.stray| == f.count && (i == 0 ==> b) && (b' ==> b)
    ensures KnownVerdict(code, f, i, b', half) ==> RawVerdict(code, f, i, b, SCRIPT)
    decreases f.count - i
  {
    if i < f.count {
      AliveOrdered(code, f, i, b, b', half);
      KnownOrdered(code, f, i + 1, RawAlive(code, f, i, b, SCRIPT), KnownAlive(code, f, i, b', half), half);
    }
  }

  /** If the script's scan is dead at the end, but would not be had it been alive in front of instruction i, nothing
      from there on moves it. */
  lemma {:induction false} SkipResumes(code: Code, f: Fn, i: nat, b: bool, half: bool)
    requires |f.stray| == f.count && 0 < i <= f.count
    requires !RawVerdict(code, f, i, b, SCRIPT) && KnownVerdict(code, f, i, true, half)
    ensures !b && UnmovedFrom(code, f, i)
    decreases f.count - i
  {
    if i < f.count {
      var c, c' := RawAlive(code, f, i, b, SCRIPT), KnownAlive(code, f, i, true, half);
      RawVerdictStep(code, f, i, b, c, SCRIPT);
      KnownStep(code, f, i, true, half, c');
      if c' {
        SkipResumes(code, f, i + 1, c, half);
        UnmovedFromStep(code, f, i);
      } else {
        KnownOrdered(code, f, i + 1, c, c', half);
      }
    }
  }

  /** Behind any other skip the flow is dead at the end. */
  lemma SkipStaysDead(code: Code, f: Fn, j: nat, half: bool)
    requires WellDecoded(code, f) && !RawVerdict(code, f, 0, true, SCRIPT)
    requires j < f.count && code(Addr(f, j)).Likely? && !MisjudgedAt(code, f, j)
    ensures j + 2 <= f.count && !KnownVerdict(code, f, j + 2, true, half)
  {
    assert SlotFollows(code, f, j);
    var b := VerdictUpTo(code, f, j + 1);
    KnownStep(code, f, j + 1, true, half, true);
    if KnownVerdict(code, f, j + 2, true, half) {
      SkipResumes(code, f, j + 1, b, half);
    }
  }

  /** The state of the scan in front of instruction i. */
  lemma {:induction false} KnownUpTo(code: Code, f: Fn, i: nat, half: bool) returns (b: bool)
    requires i <= f.count
    ensures KnownVerdict(code, f, i, b, half) == KnownVerdict(code, f, 0, true, half)
    ensures i == 0 ==> b
    ensures i > 0 && (EndMark(code, f, i - 1) != [] || LateEntry(code, f, i - 1, half) != []) ==> b
  {
    if i == 0 {
      b := true;
    } else {
      var c := KnownUpTo(code, f, i - 1, half);
      b := KnownAlive(code, f, i - 1, c, half);
      KnownStep(code, f, i - 1, c, half, b);
    }
  }

  /** A goto lands where the scan is alive. */
  lemma LandingAlive(code: Code, f: Fn, t: nat, half: bool, x: nat)
    requires WellDecoded(code, f) && IsTarget(code, f, t) && Lands(f, t, half, x)
    ensures x <= f.count && KnownVerdict(code, f, x, true, half) == KnownVerdict(code, f, 0, true, half)
  {
    var b := KnownUpTo(code, f, x, half);
    if x < f.count && t == Addr(f, x) && !(half && t == f.lo) && x > 0 {
      var c := KnownAlive(code, f, x, b, half);
      KnownStep(code, f, x, b, half, c);
      KnownStep(code, f, x, true, half, c);
    }
  }

  /** Along an edge the scan of a dead body stays dead, except over the skip that misleads the script. */
  lemma EdgeStaysDead(code: Code, p: Program, f: Fn, half: bool, i: nat, x: nat)
    requires WellDecoded(code, f) && !RawVerdict(code, f, 0, true, SCRIPT)
    requires Edge(code, p, f, half, i, x) && !MisjudgedAt(code, f, i)
    requires !KnownVerdict(code, f, i, true, half)
    ensures x <= f.count && !KnownVerdict(code, f, x, true, half)
  {
    KnownOrdered(code, f, 0, true, true, half);
    assert SlotFollows(code, f, i);
    match code(Addr(f, i))
    case Call(_, _) =>
      KnownStep(code, f, i, true, half, KnownAlive(code, f, i, true, half));
      KnownStep(code, f, i + 1, KnownAlive(code, f, i, true, half), half, true);
    case Plain => KnownStep(code, f, i, true, half, true);
    case Branch(t) =>
      if x == i + 1 {
        KnownStep(code, f, i, true, half, true);
      } else {
        TakenStaysDead(code, f, half, i, t, x);
      }
    case Likely(t) =>
      if x == i + 2 {
        SkipStaysDead(code, f, i, half);
      } else {
        TakenStaysDead(code, f, half, i, t, x);
      }
    case Jump(t) => TakenStaysDead(code, f, half, i, t, x);
  }

  lemma TakenStaysDead(code: Code, f: Fn, half: bool, i: nat, t: nat, x: nat)
    requires WellDecoded(code, f) && !KnownVerdict(code, f, 0, true, half)
    requires i < f.count && TargetOf(code(Addr(f, i))) == Some(t) && Lands(f, t, half, x)
    ensures x <= f.count && !KnownVerdict(code, f, x, true, half)
  {
    assert IsTarget(code, f, t);
    LandingAlive(code, f, t, half, x);
  }

  /** A likely branch whose skip label misleads the script can be come to. */
  ghost predicate CanMislead(code: Code, p: Program, f: Fn, half: bool)
    requires |f.stray| == f.count > 0
  {
    exists j: nat :: MisjudgedAt(code, f, j) && Reachable(code, p, f, half, j)
  }

  lemma {:induction false} PathStaysDead(code: Code, p: Program, f: Fn, half: bool, path: seq<nat>)
    requires WellDecoded(code, f) && !RawVerdict(code, f, 0, true, SCRIPT)
    requires Path(code, p, f, half, path) && !CanMislead(code, p, f, half)
    ensures path[|path| - 1] <= f.count && !KnownVerdict(code, f, path[|path| - 1], true, half)
    decreases |path|
  {
    if |path| == 1 {
      KnownOrdered(code, f, 0, true, true, half);
    } else {
      var front, i := path[..|path| - 1], path[|path| - 2];
      assert forall l :: 0 <= l < |front| - 1 ==> Edge(code, p, f, half, path[l], path[l + 1]);
      PathStaysDead(code, p, f, half, front);
      assert Path(code, p, f, half, front) && front[|front| - 1] == i;
      assert Edge(code, p, f, half, path[|path| - 2], path[|path| - 2 + 1]);
      EdgeStaysDead(code, p, f, half, i, path[|path| - 1]);
    }
  }

  /** From the misleading skip on there is nothing to keep the flow from the end. */
  lemma {:induction false} UnmovedReaches(code: Code, p: Program, f: Fn, half: bool, i: nat)
    requires |f.stray| == f.count && i <= f.count && f.count > 0
    requires UnmovedFrom(code, f, i) && Reachable(code, p, f, half, i)
    ensures Reachable(code, p, f, half, f.count)
    decreases f.count - i
  {
    if i < f.count {
      UnmovedFromStep(code, f, i);
      EdgeReachable(code, p, f, half, i, i + 1);
      UnmovedReaches(code, p, f, half, i + 1);
    }
  }

  lemma MisleadingReaches(code: Code, p: Program, f: Fn, half: bool, j: nat)
    requires WellDecoded(code, f) && MisjudgedAt(code, f, j) && Reachable(code, p, f, half, j)
    ensures Reachable(code, p, f, half, f.count)
  {
    assert SlotFollows(code, f, j);
    UnmovedFromStep(code, f, j + 1);
    EdgeReachable(code, p, f, half, j, j + 2);
    UnmovedReaches(code, p, f, half, j + 2);
  }

  /** In a body the script takes for dead, every path to the end leads over a skip that misleads it, and every such skip
      leads there. */
  lemma EndReachableIff(code: Code, p: Program, f: Fn, half: bool)
    requires WellDecoded(code, f) && !Scan(Raw(code, f, 0), true, 0, SCRIPT)
    ensures Reachable(code, p, f, half, f.count) <==> CanMislead(code, p, f, half)
  {
    RawScan(code, f, 0, true, SCRIPT);
    if CanMislead(code, p, f, half) {
      var j: nat :| MisjudgedAt(code, f, j) && Reachable(code, p, f, half, j);
      MisleadingReaches(code, p, f, half, j);
    } else if Reachable(code, p, f, half, f.count) {
      var path :| Path(code, p, f, half, path) && path[|path| - 1] == f.count;
      PathStaysDead(code, p, f, half, path);
    }
  }

  // ---------------------------------------------------------------- what the scripts keep

  lemma KeptIsUnchained(code: Code, sy: Symbols, names: set<Name>, p: Program, f: Fn)
    requires WellDecoded(code, f) && NameSound(sy, f)
    requires RepairedWithoutComplaint(code, sy, names, p, f) && StumpVerdict(sy, names, Emitted(code, f)).Kept?
    ensures Unchained(code, p, f, EntryOf(f.name).None?)
  {
    if EntryOf(f.name).Some? {
      RepairedShape(code, sy, names, f);
    } else {
      ShapeWithoutEntryRepair(code, sy, names, f);
    }
  }

  /** A function that fix_stumps keeps can, repaired, fall off its closing brace exactly if its control-flow graph has a
      path from the entry to the likely branch whose skip label is the last thing to move the verdict. */
  lemma KeptFallsIff(code: Code, sy: Symbols, names: set<Name>, p: Program, f: Fn)
    requires WellDecoded(code, f) && NameSound(sy, f)
    requires RepairedWithoutComplaint(code, sy, names, p, f) && StumpVerdict(sy, names, Emitted(code, f)).Kept?
    ensures CanFall(p, f.name) <==> CanMislead(code, p, f, !(f.name.Func? || f.name.Static?))
  {
    KeptIsUnchained(code, sy, names, p, f);
    KeptMeansDead(code, sy, names, f);
    FallsIffReachable(code, p, f, EntryOf(f.name).None?);
    EndReachableIff(code, p, f, EntryOf(f.name).None?);
  }

  // ---------------------------------------------------------------- one that falls

  /** Two instructions, then `bnel` back to the second and its delay slot, where the next symbol starts. */
  function LikelyLoop(lo: nat): Code {
    a => if a == lo + 8 then Likely(lo + 4) else Plain
  }

  function LoopFn(lo: nat): Fn {
    Fn(Func(lo), 0, lo, 4, 0, 0, [[], [], [], []])
  }

  lemma LoopTargets(lo: nat)
    ensures forall t: nat :: IsTarget(LikelyLoop(lo), LoopFn(lo), t) <==> t == lo + 4
    ensures WellDecoded(LikelyLoop(lo), LoopFn(lo)) && MisjudgedAt(LikelyLoop(lo), LoopFn(lo), 2)
  {
    var code, f := LikelyLoop(lo), LoopFn(lo);
    assert code(Addr(f, 2)) == Likely(lo + 4);
    forall t: nat ensures IsTarget(code, f, t) <==> t == lo + 4 {
      assert t == lo + 4 ==> TargetOf(code(Addr(f, 2))) == Some(t);
    }
    assert Addr(f, 1) == lo + 4;
    assert Unmoved(code, f, 3);
  }

  /** The script calls its end dead, and the loop's exit falls off it. */
  lemma LikelyLoopFalls(lo: nat)
    ensures var code, f := LikelyLoop(lo), LoopFn(lo);
            var p := map[Func(lo) := Fixed(code, f, 0, [])];
            !Scan(Raw(code, f, 0), true, 0, SCRIPT) && CanFall(p, Func(lo))
  {
    var code, f := LikelyLoop(lo), LoopFn(lo);
    var p := map[Func(lo) := Fixed(code, f, 0, [])];
    LoopTargets(lo);
    MisjudgedIff(code, f);
    LoopReached(code, p, lo);
    EndReachableIff(code, p, f, false);
    FallsIffReachable(code, p, f, false);
  }

  lemma LoopReached(code: Code, p: Program, lo: nat)
    requires code == LikelyLoop(lo)
    ensures Reachable(code, p, LoopFn(lo), false, 2)
  {
    EntryReachable(code, p, LoopFn(lo), false);
    EdgeReachable(code, p, LoopFn(lo), false, 0, 1);
    EdgeReachable(code, p, LoopFn(lo), false, 1, 2);
  }
}

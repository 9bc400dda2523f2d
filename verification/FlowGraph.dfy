/** The control-flow graph of a generated function after the scripts, with or without fix_selfentry,
    and the runs of its body as paths in that graph. */
module FlowGraph {
  import opened Wrappers
  import opened RecompiledCode
  import opened StumpRepair
  import opened EntryRepair
  import opened Recompiler
  import opened RepairedProgram

  // ---------------------------------------------------------------- the lines, one instruction after the other

  predicate Silent(b: Body) {
    forall i :: 0 <= i < |b| ==> b[i].Mark? || b[i].Note?
  }

  /** The lines from instruction i on; `half` if fix_selfentry could not read the name. */
  ghost function LinesOf(code: Code, f: Fn, i: nat, half: bool, tail: Body): Body
    requires |f.stray| == f.count
  {
    if half then Half(code, f, i, tail) else Fixed(code, f, i, tail)
  }

  /** The label in front of instruction i. */
  ghost function Front(code: Code, f: Fn, i: nat, half: bool): Body {
    if half then LocalMark(code, f, i) else EveryMark(code, f, i)
  }

  ghost function LateEntry(code: Code, f: Fn, i: nat, half: bool): Body {
    if half then EntryMark(code, f, i) else []
  }

  /** The labels and notes behind it. */
  ghost function Back(code: Code, f: Fn, i: nat, half: bool): Body
    requires |f.stray| == f.count && i < f.count
  {
    Trail(code, f, i) + (LateEntry(code, f, i, half) + Notes(|f.stray[i]|))
  }

  /** The lines from instruction i on, behind its label. */
  ghost function Node(code: Code, f: Fn, i: nat, half: bool, tail: Body): Body
    requires |f.stray| == f.count && i <= f.count
  {
    if i == f.count then tail
    else FixedUnit(code, f, Addr(f, i)) + (Back(code, f, i, half) + LinesOf(code, f, i + 1, half, tail))
  }

  lemma SilentMarks(code: Code, f: Fn, i: nat, half: bool)
    requires |f.stray| == f.count && i < f.count
    ensures Silent(Front(code, f, i, half)) && Silent(Back(code, f, i, half))
  {
    TrailMarks(code, f, i);
  }

  lemma FiveParts(u: Body, a: Body, n: Body, m: Body, e: Body)
    ensures u + (a + (n + (m + e))) == u + ((a + (n + m)) + e)
  {
    Assoc(n, m, e);
    Assoc(a, n + m, e);
  }

  lemma Segment(code: Code, f: Fn, i: nat, half: bool, tail: Body)
    requires |f.stray| == f.count && i < f.count
    ensures LinesOf(code, f, i, half, tail) == Front(code, f, i, half) + Node(code, f, i, half, tail)
  {
    var u, a := FixedUnit(code, f, Addr(f, i)), Trail(code, f, i);
    var n, m, e := LateEntry(code, f, i, half), Notes(|f.stray[i]|), LinesOf(code, f, i + 1, half, tail);
    FiveParts(u, a, n, m, e);
    if !half {
      assert n + (m + e) == m + e;
      FixedSegment(code, f, i, tail);
    }
  }

  lemma FixedSegment(code: Code, f: Fn, i: nat, tail: Body)
    requires |f.stray| == f.count && i < f.count
    ensures Fixed(code, f, i, tail) ==
            EveryMark(code, f, i) + (FixedUnit(code, f, Addr(f, i)) + (Trail(code, f, i) +
              (Notes(|f.stray[i]|) + Fixed(code, f, i + 1, tail))))
  {
    assert Behind(code, f, i, tail) ==
        FixedUnit(code, f, Addr(f, i)) + (Trail(code, f, i) + (Notes(|f.stray[i]|) + Fixed(code, f, i + 1, tail)));
  }

  // ---------------------------------------------------------------- finding labels

  ghost predicate MarkedAt(code: Code, f: Fn, i: nat, half: bool, lab: Label)
    requires |f.stray| == f.count && i < f.count
  {
    Mark(lab) in Front(code, f, i, half) || Mark(lab) in Back(code, f, i, half)
  }

  lemma {:induction false} MarkedLater(code: Code, f: Fn, i: nat, x: nat, half: bool, tail: Body, lab: Label)
    requires |f.stray| == f.count && i <= x <= f.count
    requires forall l: nat :: i <= l < x ==> !MarkedAt(code, f, l, half, lab)
    ensures FindMark(LinesOf(code, f, i, half, tail), lab) == FindMark(LinesOf(code, f, x, half, tail), lab)
    decreases x - i
  {
    if i < x {
      var b, e := Back(code, f, i, half), LinesOf(code, f, i + 1, half, tail);
      assert !MarkedAt(code, f, i, half, lab);
      Segment(code, f, i, half, tail);
      UnitHasNoMark(code, f, Addr(f, i));
      FindMarkBehind(Front(code, f, i, half), FixedUnit(code, f, Addr(f, i)) + (b + e), lab);
      FindMarkBehind(FixedUnit(code, f, Addr(f, i)), b + e, lab);
      FindMarkBehind(b, e, lab);
      MarkedLater(code, f, i + 1, x, half, tail, lab);
    }
  }

  lemma MarkedInFront(code: Code, f: Fn, x: nat, half: bool, tail: Body, lab: Label)
    requires |f.stray| == f.count && x < f.count && Front(code, f, x, half) == [Mark(lab)]
    ensures FindMark(LinesOf(code, f, x, half, tail), lab) == Some(Node(code, f, x, half, tail))
  {
    Segment(code, f, x, half, tail);
    assert ([Mark(lab)] + Node(code, f, x, half, tail))[1..] == Node(code, f, x, half, tail);
  }

  lemma {:induction false} SplitAtMark(b: Body, e: Body, lab: Label) returns (s: Body)
    requires Mark(lab) in b && Silent(b)
    ensures Silent(s) && FindMark(b + e, lab) == Some(s + e)
  {
    assert (b + e)[1..] == b[1..] + e;
    if b[0] == Mark(lab) {
      s := b[1..];
    } else {
      s := SplitAtMark(b[1..], e, lab);
    }
  }

  lemma MarkedInBack(code: Code, f: Fn, x: nat, half: bool, tail: Body, lab: Label) returns (s: Body)
    requires |f.stray| == f.count && x < f.count
    requires Mark(lab) !in Front(code, f, x, half) && Mark(lab) in Back(code, f, x, half)
    ensures Silent(s)
    ensures FindMark(LinesOf(code, f, x, half, tail), lab) == Some(s + LinesOf(code, f, x + 1, half, tail))
  {
    var u, b, e := FixedUnit(code, f, Addr(f, x)), Back(code, f, x, half), LinesOf(code, f, x + 1, half, tail);
    Segment(code, f, x, half, tail);
    SilentMarks(code, f, x, half);
    UnitHasNoMark(code, f, Addr(f, x));
    FindMarkBehind(Front(code, f, x, half), u + (b + e), lab);
    FindMarkBehind(u, b + e, lab);
    s := SplitAtMark(b, e, lab);
  }

  // ---------------------------------------------------------------- the graph

  /** Where a goto to an address of the window goes on: at the instruction, or behind the one that its label was
      misplaced behind. */
  predicate Lands(f: Fn, t: nat, half: bool, x: nat) {
    if half && t == f.lo then x == f.entryAt + 1
    else if t == Next(f) then x == f.endAt + 1
    else x < f.count && t == Addr(f, x)
  }

  /** Under some branch outcomes a call of the function comes back. */
  ghost predicate CanReturn(p: Program, name: Name) {
    name in p ==> exists cond, h, k: nat :: ReturnsAt(p, cond, name, h, k)
  }

  ghost predicate ReturnsAt(p: Program, cond: seq<nat> -> bool, name: Name, h: seq<nat>, k: nat)
    requires name in p
  {
    CRun(p, cond, At(name, p[name], [], h), k).Done?
  }

  /** From instruction i the flow of f can go on at instruction x; x == f.count is the closing brace. */
  ghost predicate Edge(code: Code, p: Program, f: Fn, half: bool, i: nat, x: nat)
    requires f.count > 0
  {
    i < f.count &&
    match code(Addr(f, i))
    case Plain => x == i + 1
    case Call(_, name) => x == i + 2 && CanReturn(p, name)
    case Branch(t) => x == i + 1 || (Window(f, t) && Lands(f, t, half, x))
    case Likely(t) => x == i + 2 || (Window(f, t) && Lands(f, t, half, x))
    case Jump(t) => Window(f, t) && Lands(f, t, half, x)
    case Leave(_, _) => false
    case Ret => false
  }

  ghost predicate Path(code: Code, p: Program, f: Fn, half: bool, path: seq<nat>)
    requires f.count > 0
  {
    path != [] && path[0] == 0 && forall l :: 0 <= l < |path| - 1 ==> Edge(code, p, f, half, path[l], path[l + 1])
  }

  /** There is a path from the entry to instruction x. */
  ghost predicate Reachable(code: Code, p: Program, f: Fn, half: bool, x: nat)
    requires f.count > 0
  {
    exists path :: Path(code, p, f, half, path) && path[|path| - 1] == x
  }

  lemma EntryReachable(code: Code, p: Program, f: Fn, half: bool)
    requires f.count > 0
    ensures Reachable(code, p, f, half, 0)
  {
    assert Path(code, p, f, half, [0]) && [0][|[0]| - 1] == 0;
  }

  lemma EdgeReachable(code: Code, p: Program, f: Fn, half: bool, i: nat, x: nat)
    requires f.count > 0 && Reachable(code, p, f, half, i) && Edge(code, p, f, half, i, x)
    ensures Reachable(code, p, f, half, x)
  {
    var path :| Path(code, p, f, half, path) && path[|path| - 1] == i;
    var on := path + [x];
    forall l | 0 <= l < |on| - 1 ensures Edge(code, p, f, half, on[l], on[l + 1]) {
      assert on[l] == path[l];
    }
    assert Path(code, p, f, half, on) && on[|on| - 1] == x;
  }

  // ---------------------------------------------------------------- runs along the edges

  /** The body of f is as the scripts leave it. */
  ghost predicate Laid(w: World, f: Fn, half: bool, tail: Body) {
    WellDecoded(w.code, f) && f.name in w.p && w.p[f.name] == LinesOf(w.code, f, 0, half, tail)
  }

  ghost function AtNode(code: Code, f: Fn, i: nat, half: bool, tail: Body, z: seq<Frame>, h: seq<nat>): CState
    requires |f.stray| == f.count && i <= f.count
  {
    At(f.name, Node(code, f, i, half, tail), z, h)
  }

  /** Past labels and notes to instruction i. */
  lemma ComesTo(w: World, f: Fn, s: Body, i: nat, half: bool, tail: Body, z: seq<Frame>, h: seq<nat>) returns (k: nat)
    requires |f.stray| == f.count && i <= f.count && Silent(s)
    ensures Goes(w, At(f.name, s + LinesOf(w.code, f, i, half, tail), z, h), AtNode(w.code, f, i, half, tail, z, h), k)
  {
    var e, d := LinesOf(w.code, f, i, half, tail), Node(w.code, f, i, half, tail);
    GoesPast(w, f.name, s, e, z, h);
    k := |s|;
    if i < f.count {
      var a := Front(w.code, f, i, half);
      Segment(w.code, f, i, half, tail);
      SilentMarks(w.code, f, i, half);
      GoesPast(w, f.name, a, d, z, h);
      GoesOn(w, At(f.name, s + e, z, h), At(f.name, e, z, h), At(f.name, d, z, h), |s|, |a|);
      k := |s| + |a|;
    }
  }

  /** A goto to a label behind which only labels and notes come before instruction x. */
  lemma GotoComesTo(w: World, f: Fn, lab: Label, s: Body, x: nat, half: bool, tail: Body, rest: Body, z: seq<Frame>,
          h: seq<nat>)
    returns (k: nat)
    requires Laid(w, f, half, tail) && x <= f.count && Silent(s)
    requires FindMark(w.p[f.name], lab) == Some(s + LinesOf(w.code, f, x, half, tail))
    ensures k > 0 && Goes(w, At(f.name, [Goto(lab)] + rest, z, h), AtNode(w.code, f, x, half, tail, z, h), k)
  {
    var g, t := At(f.name, [Goto(lab)] + rest, z, h), At(f.name, s + LinesOf(w.code, f, x, half, tail), z, h);
    GoesOnce(w, g, t);
    var k' := ComesTo(w, f, s, x, half, tail, z, h);
    GoesOn(w, g, t, AtNode(w.code, f, x, half, tail, z, h), 1, k');
    k := 1 + k';
  }

  /** The goto of a branch inside the window. */
  lemma GotoLands(w: World, f: Fn, t: nat, x: nat, half: bool, tail: Body, rest: Body, z: seq<Frame>, h: seq<nat>)
    returns (k: nat)
    requires Laid(w, f, half, tail) && IsTarget(w.code, f, t) && Lands(f, t, half, x)
    ensures x <= f.count && k > 0
    ensures Goes(w, At(f.name, [Goto(L(t))] + rest, z, h), AtNode(w.code, f, x, half, tail, z, h), k)
  {
    if t == Addr(f, x) && x < f.count && !(half && t == f.lo) {
      LocalFound(w.code, f, x, half, tail);
      GoesOnce(w, At(f.name, [Goto(L(t))] + rest, z, h), AtNode(w.code, f, x, half, tail, z, h));
      k := 1;
    } else {
      var s := LateFound(w.code, f, t, x, half, tail);
      k := GotoComesTo(w, f, L(t), s, x, half, tail, rest, z, h);
    }
  }

  lemma LocalFound(code: Code, f: Fn, x: nat, half: bool, tail: Body)
    requires WellDecoded(code, f) && x < f.count && IsTarget(code, f, Addr(f, x)) && (half ==> x > 0)
    ensures FindMark(LinesOf(code, f, 0, half, tail), L(Addr(f, x))) == Some(Node(code, f, x, half, tail))
  {
    forall l: nat | l < x ensures !MarkedAt(code, f, l, half, L(Addr(f, x))) {
      LocalMarksAt(code, f, l, half, x);
    }
    MarkedLater(code, f, 0, x, half, tail, L(Addr(f, x)));
    MarkedInFront(code, f, x, half, tail, L(Addr(f, x)));
  }

  lemma LocalMarksAt(code: Code, f: Fn, l: nat, half: bool, x: nat)
    requires |f.stray| == f.count && l < x < f.count
    ensures !MarkedAt(code, f, l, half, L(Addr(f, x)))
  {
  }

  /** The label of the entry, where it was emitted, and that of the address behind the span. */
  lemma LateFound(code: Code, f: Fn, t: nat, x: nat, half: bool, tail: Body) returns (s: Body)
    requires WellDecoded(code, f) && IsTarget(code, f, t) && Lands(f, t, half, x)
    requires t == Next(f) || (half && t == f.lo)
    ensures x <= f.count && Silent(s)
    ensures FindMark(LinesOf(code, f, 0, half, tail), L(t)) == Some(s + LinesOf(code, f, x, half, tail))
  {
    forall l: nat | l < x - 1 ensures !MarkedAt(code, f, l, half, L(t)) {
      LateMarksAt(code, f, l, half, t, x);
    }
    MarkedLater(code, f, 0, x - 1, half, tail, L(t));
    LateMarkHere(code, f, half, t, x);
    s := MarkedInBack(code, f, x - 1, half, tail, L(t));
  }

  lemma LateMarksAt(code: Code, f: Fn, l: nat, half: bool, t: nat, x: nat)
    requires |f.stray| == f.count && l + 1 < x <= f.count && Lands(f, t, half, x)
    requires t == Next(f) || (half && t == f.lo)
    ensures !MarkedAt(code, f, l, half, L(t))
  {
  }

  lemma LateMarkHere(code: Code, f: Fn, half: bool, t: nat, x: nat)
    requires |f.stray| == f.count && 0 < x <= f.count && Lands(f, t, half, x) && IsTarget(code, f, t)
    requires t == Next(f) || (half && t == f.lo)
    ensures Mark(L(t)) !in Front(code, f, x - 1, half) && Mark(L(t)) in Back(code, f, x - 1, half)
  {
    var i := x - 1;
    var a, n, m := Trail(code, f, i), LateEntry(code, f, i, half), Notes(|f.stray[i]|);
    InAppend(a, n + m, Mark(L(t)));
    InAppend(n, m, Mark(L(t)));
    if t == Next(f) {
      InAppend(LinkMark(code, f, i), EndMark(code, f, i), Mark(L(t)));
    }
  }

  /** The goto over a delay slot that has been dealt with. */
  lemma LinkComesTo(w: World, f: Fn, i: nat, half: bool, tail: Body, rest: Body, z: seq<Frame>, h: seq<nat>)
    returns (k: nat)
    requires Laid(w, f, half, tail) && i < f.count && LinkLabel(w.code, Addr(f, i)).Some?
    ensures i + 2 <= f.count && k > 0
    ensures Goes(w, At(f.name, [Goto(LinkLabel(w.code, Addr(f, i)).value)] + rest, z, h),
                 AtNode(w.code, f, i + 2, half, tail, z, h), k)
  {
    var lab := LinkLabel(w.code, Addr(f, i)).value;
    assert SlotFollows(w.code, f, i);
    forall l: nat | l < i + 1 ensures !MarkedAt(w.code, f, l, half, lab) {
      LinkMarksAt(w.code, f, l, half, i);
    }
    MarkedLater(w.code, f, 0, i + 1, half, tail, lab);
    LinkMarkHere(w.code, f, half, i);
    var s := MarkedInBack(w.code, f, i + 1, half, tail, lab);
    k := GotoComesTo(w, f, lab, s, i + 2, half, tail, rest, z, h);
  }

  lemma LinkMarksAt(code: Code, f: Fn, l: nat, half: bool, i: nat)
    requires |f.stray| == f.count && l <= i < f.count && LinkLabel(code, Addr(f, i)).Some?
    ensures !MarkedAt(code, f, l, half, LinkLabel(code, Addr(f, i)).value)
  {
  }

  lemma LinkMarkHere(code: Code, f: Fn, half: bool, i: nat)
    requires |f.stray| == f.count && i + 1 < f.count && LinkLabel(code, Addr(f, i)).Some?
    ensures Mark(LinkLabel(code, Addr(f, i)).value) !in Front(code, f, i + 1, half)
    ensures Mark(LinkLabel(code, Addr(f, i)).value) in Back(code, f, i + 1, half)
  {
    var lab := LinkLabel(code, Addr(f, i)).value;
    var a, r := Trail(code, f, i + 1), LateEntry(code, f, i + 1, half) + Notes(|f.stray[i + 1]|);
    InAppend(a, r, Mark(lab));
    InAppend(LinkMark(code, f, i + 1), EndMark(code, f, i + 1), Mark(lab));
    assert LinkMark(code, f, i + 1)[0] == Mark(lab);
  }

  /** The lines behind those of instruction i itself. */
  ghost function RestOf(code: Code, f: Fn, i: nat, half: bool, tail: Body): Body
    requires |f.stray| == f.count && i < f.count
  {
    Back(code, f, i, half) + LinesOf(code, f, i + 1, half, tail)
  }

  lemma RestComesTo(w: World, f: Fn, i: nat, half: bool, tail: Body, z: seq<Frame>, h: seq<nat>) returns (k: nat)
    requires |f.stray| == f.count && i < f.count
    ensures Goes(w, At(f.name, RestOf(w.code, f, i, half, tail), z, h), AtNode(w.code, f, i + 1, half, tail, z, h), k)
  {
    SilentMarks(w.code, f, i, half);
    k := ComesTo(w, f, Back(w.code, f, i, half), i + 1, half, tail, z, h);
  }

  lemma PlainGoes(w: World, f: Fn, i: nat, half: bool, tail: Body, z: seq<Frame>, h: seq<nat>) returns (k: nat)
    requires |f.stray| == f.count && i < f.count && w.code(Addr(f, i)).Plain?
    ensures k > 0
    ensures Goes(w, AtNode(w.code, f, i, half, tail, z, h),
                 AtNode(w.code, f, i + 1, half, tail, z, h + [Addr(f, i)]), k)
  {
    var s, r := AtNode(w.code, f, i, half, tail, z, h), RestOf(w.code, f, i, half, tail);
    var t := At(f.name, r, z, h + [Addr(f, i)]);
    assert s.rest == [Insn(Addr(f, i), None)] + r && s.rest[1..] == r;
    GoesOnce(w, s, t);
    var k' := RestComesTo(w, f, i, half, tail, z, h + [Addr(f, i)]);
    GoesOn(w, s, t, AtNode(w.code, f, i + 1, half, tail, z, h + [Addr(f, i)]), 1, k');
    k := 1 + k';
  }

  /** Behind the block of a conditional branch. */
  ghost function BlockRest(code: Code, f: Fn, i: nat, half: bool, tail: Body): Body
    requires |f.stray| == f.count && i < f.count
  {
    if code(Addr(f, i)).Likely? then [Goto(Other(Addr(f, i)))] + RestOf(code, f, i, half, tail)
    else RestOf(code, f, i, half, tail)
  }

  predicate Conditional(i: Instr, t: nat) {
    i == Branch(t) || i == Likely(t)
  }

  lemma BlockOf(w: World, f: Fn, i: nat, t: nat, half: bool, tail: Body)
    requires |f.stray| == f.count && i < f.count && Conditional(w.code(Addr(f, i)), t)
    ensures var a := Addr(f, i);
            Node(w.code, f, i, half, tail) ==
              [Insn(a, Some(t)), IfOpen, Insn(a + 4, None), Exit(f, t), Close] + BlockRest(w.code, f, i, half, tail)
  {
  }

  /** A conditional branch that is not taken. */
  lemma UntakenGoes(w: World, f: Fn, i: nat, t: nat, half: bool, tail: Body, z: seq<Frame>, h: seq<nat>)
    returns (k: nat)
    requires Laid(w, f, half, tail) && i < f.count && Conditional(w.code(Addr(f, i)), t) && !w.cond(h + [Addr(f, i)])
    ensures var x := if w.code(Addr(f, i)).Likely? then i + 2 else i + 1;
            k > 0 && x <= f.count &&
            Goes(w, AtNode(w.code, f, i, half, tail, z, h), AtNode(w.code, f, x, half, tail, z, h + [Addr(f, i)]), k)
  {
    hide LinesOf, Back;
    var a, r, h' := Addr(f, i), RestOf(w.code, f, i, half, tail), h + [Addr(f, i)];
    var s, b := AtNode(w.code, f, i, half, tail, z, h), At(f.name, BlockRest(w.code, f, i, half, tail), z, h');
    BlockOf(w, f, i, t, half, tail);
    UntakenBranch(w, f.name, a, t, Exit(f, t), BlockRest(w.code, f, i, half, tail), z, h);
    if w.code(a).Likely? {
      k := LinkComesTo(w, f, i, half, tail, r, z, h');
      GoesOn(w, s, b, AtNode(w.code, f, i + 2, half, tail, z, h'), 2, k);
    } else {
      k := RestComesTo(w, f, i, half, tail, z, h');
      GoesOn(w, s, b, AtNode(w.code, f, i + 1, half, tail, z, h'), 2, k);
    }
    k := k + 2;
  }

  /** A branch or jump that is taken comes to its exit line. */
  lemma TakenGoes(w: World, f: Fn, i: nat, t: nat, half: bool, tail: Body, z: seq<Frame>, h: seq<nat>)
    returns (k: nat, r: Body)
    requires |f.stray| == f.count && i < f.count
    requires w.code(Addr(f, i)) == Jump(t) || (Conditional(w.code(Addr(f, i)), t) && w.cond(h + [Addr(f, i)]))
    ensures k == if w.code(Addr(f, i)).Jump? then 2 else 3
    ensures Goes(w, AtNode(w.code, f, i, half, tail, z, h),
                 At(f.name, [Exit(f, t)] + r, z, h + [Addr(f, i), Addr(f, i) + 4]), k)
  {
    hide LinesOf, Back;
    var a := Addr(f, i);
    if w.code(a).Jump? {
      k, r := 2, RestOf(w.code, f, i, half, tail);
      TwoVisits(w, f.name, a, Some(t), Exit(f, t), r, z, h);
      assert Node(w.code, f, i, half, tail) == [Insn(a, Some(t)), Insn(a + 4, None), Exit(f, t)] + r;
    } else {
      k, r := 3, [Close] + BlockRest(w.code, f, i, half, tail);
      BlockOf(w, f, i, t, half, tail);
      TakenBranch(w, f.name, a, t, Exit(f, t), BlockRest(w.code, f, i, half, tail), z, h);
    }
  }

  lemma TakenLands(w: World, f: Fn, i: nat, t: nat, x: nat, half: bool, tail: Body, z: seq<Frame>, h: seq<nat>)
    returns (k: nat)
    requires Laid(w, f, half, tail) && i < f.count && Window(f, t) && Lands(f, t, half, x)
    requires w.code(Addr(f, i)) == Jump(t) || (Conditional(w.code(Addr(f, i)), t) && w.cond(h + [Addr(f, i)]))
    ensures k > 0 && x <= f.count
    ensures Goes(w, AtNode(w.code, f, i, half, tail, z, h),
                 AtNode(w.code, f, x, half, tail, z, h + [Addr(f, i), Addr(f, i) + 4]), k)
  {
    hide Node, LinesOf, Lands;
    var h2 := h + [Addr(f, i), Addr(f, i) + 4];
    var j, r := TakenGoes(w, f, i, t, half, tail, z, h);
    assert IsTarget(w.code, f, t);
    k := GotoLands(w, f, t, x, half, tail, r, z, h2);
    GoesOn(w, AtNode(w.code, f, i, half, tail, z, h), At(f.name, [Goto(L(t))] + r, z, h2),
      AtNode(w.code, f, x, half, tail, z, h2), j, k);
    k := j + k;
  }

  /** The line that transfers control, with both instructions visited. */
  lemma TransferGoes(w: World, f: Fn, i: nat, x: Line, r: Body, half: bool, tail: Body, z: seq<Frame>, h: seq<nat>)
    requires |f.stray| == f.count && i < f.count
    requires Node(w.code, f, i, half, tail) == [Insn(Addr(f, i), None), Insn(Addr(f, i) + 4, None), x] + r
    ensures Goes(w, AtNode(w.code, f, i, half, tail, z, h), At(f.name, [x] + r, z, h + [Addr(f, i), Addr(f, i) + 4]), 2)
  {
    TwoVisits(w, f.name, Addr(f, i), None, x, r, z, h);
  }

  /** What a call leaves to do in the caller. */
  ghost function CallRest(code: Code, f: Fn, i: nat, half: bool, tail: Body): Body
    requires |f.stray| == f.count && i < f.count
  {
    [Goto(After(Addr(f, i)))] + RestOf(code, f, i, half, tail)
  }

  lemma CallGoes(w: World, f: Fn, i: nat, half: bool, tail: Body, z: seq<Frame>, h: seq<nat>)
    requires |f.stray| == f.count && i < f.count && w.code(Addr(f, i)).Call?
    ensures Goes(w, AtNode(w.code, f, i, half, tail, z, h),
                 At(f.name, [CallTo(w.code(Addr(f, i)).name)] + CallRest(w.code, f, i, half, tail), z,
                    h + [Addr(f, i), Addr(f, i) + 4]), 2)
  {
    TransferGoes(w, f, i, CallTo(w.code(Addr(f, i)).name), CallRest(w.code, f, i, half, tail), half, tail, z, h);
  }
}

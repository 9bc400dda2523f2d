/** What N64Recomp emits for one decoded function, faults included, and what the three
    repair scripts leave of it. */
module Recompiler {
  import opened Wrappers
  import opened RecompiledCode
  import opened StumpRepair
  import opened BranchRepair
  import opened EntryRepair

  /** A generated function of one section: `count` instructions decoded from `lo` on. `stray[i]` are the labels of
      out-of-span targets that end up behind instruction i, `entryAt` and `endAt` the instructions behind which
      the label of `lo` itself and the one of the address right behind the span are emitted. */
  datatype Fn = Fn(name: Name, section: nat, lo: nat, count: nat, entryAt: nat, endAt: nat, stray: seq<seq<nat>>)

  function Addr(f: Fn, i: nat): nat { f.lo + 4 * i }

  function Last(f: Fn): nat
    requires f.count > 0
  {
    Addr(f, f.count - 1)
  }

  function TargetOf(i: Instr): Option<nat> {
    match i
    case Branch(t) => Some(t)
    case Likely(t) => Some(t)
    case Jump(t) => Some(t)
    case _ => None
  }

  ghost predicate IsTarget(code: Code, f: Fn, t: nat) {
    exists i: nat :: i < f.count && TargetOf(code(Addr(f, i))) == Some(t)
  }

  predicate Window(f: Fn, t: nat)
    requires f.count > 0
  {
    f.lo <= t < Last(f) + 8
  }

  /** The address right behind the span. */
  function Next(f: Fn): nat {
    Addr(f, f.count)
  }

  /** Its delay slot is a decoded plain instruction. */
  predicate SlotFollows(code: Code, f: Fn, i: nat) {
    !code(Addr(f, i)).Plain? ==> i + 1 < f.count && code(Addr(f, i + 1)).Plain?
  }

  /** A target in the window is a decoded instruction or the address right behind them. */
  ghost predicate TargetKnown(code: Code, f: Fn, t: nat)
    requires f.count > 0
  {
    IsTarget(code, f, t) && Window(f, t) && t != Next(f) ==> exists j: nat :: j < f.count && t == Addr(f, j)
  }

  /** Stray labels belong to targets out of the window. */
  ghost predicate StraysBelong(code: Code, f: Fn, i: nat)
    requires i < f.count == |f.stray|
  {
    forall t: nat :: t in f.stray[i] ==> IsTarget(code, f, t) && !Window(f, t)
  }

  ghost predicate WellDecoded(code: Code, f: Fn) {
    && f.count > 0
    && |f.stray| == f.count
    && f.entryAt < f.count && f.endAt < f.count
    && (forall i: nat {:trigger SlotFollows(code, f, i)} :: i < f.count ==> SlotFollows(code, f, i))
    && (forall t: nat {:trigger TargetKnown(code, f, t)} :: TargetKnown(code, f, t))
    && (forall i: nat {:trigger StraysBelong(code, f, i)} :: i < f.count ==> StraysBelong(code, f, i))
  }

  // ---------------------------------------------------------------- emission

  function Unit(code: Code, a: nat): Body {
    match code(a)
    case Plain => [Insn(a, None)]
    case Call(_, name) => [Insn(a, None), Insn(a + 4, None), CallTo(name), Goto(After(a))]
    case Branch(t) => [Insn(a, Some(t)), IfOpen, Insn(a + 4, None), Goto(L(t)), Close]
    case Likely(t) => [Insn(a, Some(t)), IfOpen, Insn(a + 4, None), Goto(L(t)), Close, Goto(Other(a))]
    case Jump(t) => [Insn(a, Some(t)), Insn(a + 4, None), Goto(L(t))]
    case Leave(_, name) => [Insn(a, None), Insn(a + 4, None), ChainReturn(name)]
    case Ret => [Insn(a, None), Insn(a + 4, None), Return]
  }

  ghost function LocalMark(code: Code, f: Fn, i: nat): Body {
    if i > 0 && IsTarget(code, f, Addr(f, i)) then [Mark(L(Addr(f, i)))] else []
  }

  /** The label that a call, or a likely branch not taken, goes on at: behind the delay slot. */
  function LinkLabel(code: Code, a: nat): Option<Label> {
    match code(a)
    case Call(_, _) => Some(After(a))
    case Likely(_) => Some(Other(a))
    case _ => None
  }

  function LinkMark(code: Code, f: Fn, i: nat): Body {
    if i > 0 && LinkLabel(code, Addr(f, i - 1)).Some? then [Mark(LinkLabel(code, Addr(f, i - 1)).value)] else []
  }

  ghost function EndMark(code: Code, f: Fn, i: nat): Body {
    if i == f.endAt && IsTarget(code, f, Next(f)) then [Mark(L(Next(f)))] else []
  }

  /** The labels behind instruction i that the repairs leave alone. */
  ghost function Trail(code: Code, f: Fn, i: nat): Body {
    LinkMark(code, f, i) + EndMark(code, f, i)
  }

  ghost function EntryMark(code: Code, f: Fn, i: nat): Body {
    if i == f.entryAt && IsTarget(code, f, f.lo) then [Mark(L(f.lo))] else []
  }

  function Marks(ts: seq<nat>): (r: Body)
    ensures |r| == |ts|
    ensures forall i :: 0 <= i < |ts| ==> r[i] == Mark(L(ts[i]))
  {
    if ts == [] then [] else [Mark(L(ts[0]))] + Marks(ts[1..])
  }

  /** The emitted lines from instruction i on. */
  ghost function Raw(code: Code, f: Fn, i: nat): Body
    requires |f.stray| == f.count
    decreases f.count - i
  {
    if i >= f.count then []
    else
      LocalMark(code, f, i) + (Unit(code, Addr(f, i)) + (Trail(code, f, i) +
        (EntryMark(code, f, i) + (Marks(f.stray[i]) + Raw(code, f, i + 1)))))
  }

  // ---------------------------------------------------------------- the repaired shape

  function Exit(f: Fn, t: nat): Line
    requires f.count > 0
  {
    if Window(f, t) then Goto(L(t)) else TailCall(Func(t))
  }

  function FixedUnit(code: Code, f: Fn, a: nat): Body
    requires f.count > 0
  {
    match code(a)
    case Plain => [Insn(a, None)]
    case Call(_, name) => [Insn(a, None), Insn(a + 4, None), CallTo(name), Goto(After(a))]
    case Branch(t) => [Insn(a, Some(t)), IfOpen, Insn(a + 4, None), Exit(f, t), Close]
    case Likely(t) => [Insn(a, Some(t)), IfOpen, Insn(a + 4, None), Exit(f, t), Close, Goto(Other(a))]
    case Jump(t) => [Insn(a, Some(t)), Insn(a + 4, None), Exit(f, t)]
    case Leave(_, name) => [Insn(a, None), Insn(a + 4, None), ChainReturn(name)]
    case Ret => [Insn(a, None), Insn(a + 4, None), Return]
  }

  ghost function EveryMark(code: Code, f: Fn, i: nat): Body {
    if IsTarget(code, f, Addr(f, i)) then [Mark(L(Addr(f, i)))] else []
  }

  function Notes(n: nat): (r: Body)
    ensures |r| == n
    ensures forall i :: 0 <= i < n ==> r[i] == Note
  {
    if n == 0 then [] else [Note] + Notes(n - 1)
  }

  /** The repaired lines from instruction i on, its own label excluded. */
  ghost function Behind(code: Code, f: Fn, i: nat, tail: Body): Body
    requires |f.stray| == f.count && i < f.count
    decreases f.count - i, 0
  {
    FixedUnit(code, f, Addr(f, i)) + (Trail(code, f, i) + (Notes(|f.stray[i]|) + Fixed(code, f, i + 1, tail)))
  }

  ghost function Fixed(code: Code, f: Fn, i: nat, tail: Body): Body
    requires |f.stray| == f.count
    decreases f.count - i, 1
  {
    if i >= f.count then tail else EveryMark(code, f, i) + Behind(code, f, i, tail)
  }

  /** Between fix_backbranches and fix_selfentry: the entry label is still where it was emitted. */
  ghost function Half(code: Code, f: Fn, i: nat, tail: Body): Body
    requires |f.stray| == f.count
    decreases f.count - i
  {
    if i >= f.count then tail
    else
      LocalMark(code, f, i) + (FixedUnit(code, f, Addr(f, i)) + (Trail(code, f, i) +
        (EntryMark(code, f, i) + (Notes(|f.stray[i]|) + Half(code, f, i + 1, tail)))))
  }

  lemma TrailMarks(code: Code, f: Fn, i: nat)
    ensures |Trail(code, f, i)| <= 2
    ensures forall k :: 0 <= k < |Trail(code, f, i)| ==> Trail(code, f, i)[k].Mark?
  {
  }

  // ---------------------------------------------------------------- addresses of an emitted body

  lemma {:induction false} AddrsAppend(a: Body, b: Body)
    ensures Addrs(a + b) == Addrs(a) + Addrs(b)
  {
    hide Addrs;
    AddrsStep(a);
    if a == [] {
      assert a + b == b;
    } else {
      assert (a + b)[1..] == a[1..] + b;
      AddrsStep(a + b);
      AddrsAppend(a[1..], b);
    }
  }

  lemma AddrsStep(a: Body)
    ensures Addrs(a) == if a == [] then [] else (if a[0].Insn? then [a[0].addr] else []) + Addrs(a[1..])
  {
  }

  /** Lines that decode nothing. */
  predicate Inert(b: Body) {
    forall i :: 0 <= i < |b| ==> b[i].Mark? || b[i].Note? || b[i].ChainReturn?
  }

  lemma {:induction false} NoAddrs(b: Body)
    requires Inert(b)
    ensures Addrs(b) == []
  {
    if b != [] {
      NoAddrs(b[1..]);
    }
  }

  lemma UnitAddrs(code: Code, a: nat)
    ensures Addrs(Unit(code, a)) == if code(a).Plain? then [a] else [a, a + 4]
  {
    var u := Unit(code, a);
    if !code(a).Plain? {
      TwoInsns(u, if code(a).Branch? || code(a).Likely? then 2 else 1);
    }
  }

  /** The first line and line x are the only decoded ones. */
  lemma TwoInsns(u: Body, x: nat)
    requires 0 < x < |u| && forall i :: 0 <= i < |u| ==> (u[i].Insn? <==> i == 0 || i == x)
    ensures Addrs(u) == [u[0].addr, u[x].addr]
  {
    hide Addrs;
    assert u == [u[0]] + (u[1..x] + ([u[x]] + u[x + 1..]));
    AddrsAppend([u[0]], u[1..x] + ([u[x]] + u[x + 1..]));
    AddrsAppend(u[1..x], [u[x]] + u[x + 1..]);
    AddrsAppend([u[x]], u[x + 1..]);
    OneInsn(u[0]);
    OneInsn(u[x]);
    NoInsns(u[1..x]);
    NoInsns(u[x + 1..]);
  }

  lemma OneInsn(line: Line)
    requires line.Insn?
    ensures Addrs([line]) == [line.addr]
  {
  }

  lemma {:induction false} NoInsns(b: Body)
    requires forall i :: 0 <= i < |b| ==> !b[i].Insn?
    ensures Addrs(b) == []
  {
    if b != [] {
      NoInsns(b[1..]);
    }
  }

  lemma AddrsOfSegment(l: Body, u: Body, a: Body, n: Body, m: Body, e: Body)
    requires Inert(l) && Inert(a) && Inert(n) && Inert(m)
    ensures Addrs(l + (u + (a + (n + (m + e))))) == Addrs(u) + Addrs(e)
  {
    hide Addrs;
    AddrsAppend(l, u + (a + (n + (m + e))));
    AddrsAppend(u, a + (n + (m + e)));
    AddrsAppend(a, n + (m + e));
    AddrsAppend(n, m + e);
    AddrsAppend(m, e);
    NoAddrs(l);
    NoAddrs(a);
    NoAddrs(n);
    NoAddrs(m);
  }

  lemma RawAddrsStep(code: Code, f: Fn, i: nat)
    requires |f.stray| == f.count && i < f.count
    ensures Addrs(Raw(code, f, i)) ==
            (if code(Addr(f, i)).Plain? then [Addr(f, i)] else [Addr(f, i), Addr(f, i) + 4]) +
              Addrs(Raw(code, f, i + 1))
  {
    hide Unit, Addrs, Trail, IsTarget;
    var l, u, a := LocalMark(code, f, i), Unit(code, Addr(f, i)), Trail(code, f, i);
    TrailMarks(code, f, i);
    AddrsOfSegment(l, u, a, EntryMark(code, f, i), Marks(f.stray[i]), Raw(code, f, i + 1));
    UnitAddrs(code, Addr(f, i));
  }

  predicate Spans(s: seq<nat>, lo: nat, hi: nat) {
    s != [] && s[0] == lo && s[|s| - 1] == hi && forall j :: 0 <= j < |s| ==> lo <= s[j] <= hi
  }

  lemma SpansJoin(head: seq<nat>, rest: seq<nat>, lo: nat, mid: nat, hi: nat)
    requires Spans(rest, mid, hi) && lo <= mid
    requires head != [] && head[0] == lo && forall j :: 0 <= j < |head| ==> lo <= head[j] <= hi
    ensures Spans(head + rest, lo, hi)
  {
  }

  /** From instruction i on, an emitted body decodes i first, the last address last, and nothing outside. */
  lemma {:induction false} RawAddrs(code: Code, f: Fn, i: nat)
    requires WellDecoded(code, f) && i < f.count
    ensures Spans(Addrs(Raw(code, f, i)), Addr(f, i), Last(f))
    decreases f.count - i
  {
    hide Raw, Addrs;
    RawAddrsStep(code, f, i);
    assert SlotFollows(code, f, i);
    var rest := Addrs(Raw(code, f, i + 1));
    if i + 1 < f.count {
      var head := if code(Addr(f, i)).Plain? then [Addr(f, i)] else [Addr(f, i), Addr(f, i) + 4];
      RawAddrs(code, f, i + 1);
      SpansJoin(head, rest, Addr(f, i), Addr(f, i + 1), Last(f));
    } else {
      NothingBehind(code, f);
      SpansOne(Addrs(Raw(code, f, i)), rest, Addr(f, i));
    }
  }

  lemma NothingBehind(code: Code, f: Fn)
    requires |f.stray| == f.count
    ensures Addrs(Raw(code, f, f.count)) == []
  {
  }

  lemma SpansOne(s: seq<nat>, rest: seq<nat>, a: nat)
    requires s == [a] + rest && rest == []
    ensures Spans(s, a, a)
  {
  }

  // ---------------------------------------------------------------- targets of an emitted body

  lemma TargetsAppend(a: Body, b: Body)
    ensures BranchTargets(a + b) == BranchTargets(a) + BranchTargets(b)
  {
    forall t ensures t in BranchTargets(a + b) <==> t in BranchTargets(a) || t in BranchTargets(b) {
      assert forall line :: line in a + b <==> line in a || line in b;
    }
  }

  lemma TargetsOfSegment(l: Body, u: Body, a: Body, n: Body, m: Body, e: Body)
    requires Inert(l) && Inert(a) && Inert(n) && Inert(m)
    ensures BranchTargets(l + (u + (a + (n + (m + e))))) == BranchTargets(u) + BranchTargets(e)
  {
    TargetsAppend(l, u + (a + (n + (m + e))));
    TargetsAppend(u, a + (n + (m + e)));
    TargetsAppend(a, n + (m + e));
    TargetsAppend(n, m + e);
    TargetsAppend(m, e);
  }

  lemma {:induction false} RawTargets(code: Code, f: Fn, i: nat, t: nat)
    requires |f.stray| == f.count
    ensures t in BranchTargets(Raw(code, f, i)) <==> TargetFrom(code, f, i, t)
    decreases f.count - i
  {
    hide Unit, LocalMark, Trail, EntryMark;
    if i < f.count {
      RawTargets(code, f, i + 1, t);
      RawTargetsStep(code, f, i, t);
      TargetFromStep(code, f, i, t);
    }
  }

  ghost predicate TargetFrom(code: Code, f: Fn, i: nat, t: nat) {
    exists j: nat :: i <= j < f.count && TargetOf(code(Addr(f, j))) == Some(t)
  }

  lemma TargetFromStep(code: Code, f: Fn, i: nat, t: nat)
    requires i < f.count
    ensures TargetFrom(code, f, i, t) <==> TargetOf(code(Addr(f, i))) == Some(t) || TargetFrom(code, f, i + 1, t)
  {
  }

  lemma RawTargetsStep(code: Code, f: Fn, i: nat, t: nat)
    requires |f.stray| == f.count && i < f.count
    ensures t in BranchTargets(Raw(code, f, i)) <==>
            TargetOf(code(Addr(f, i))) == Some(t) || t in BranchTargets(Raw(code, f, i + 1))
  {
    hide Unit, BranchTargets, Trail, LocalMark, EntryMark, Marks, Inert, TargetOf;
    UnitTarget(code, Addr(f, i), t);
    TrailMarks(code, f, i);
    MarksAreInert(code, f, i);
    TargetsOfSegment(LocalMark(code, f, i), Unit(code, Addr(f, i)), Trail(code, f, i), EntryMark(code, f, i),
                     Marks(f.stray[i]), Raw(code, f, i + 1));
  }

  lemma MarksAreInert(code: Code, f: Fn, i: nat)
    requires |f.stray| == f.count && i < f.count
    ensures Inert(LocalMark(code, f, i)) && Inert(EntryMark(code, f, i)) && Inert(Marks(f.stray[i]))
  {
    hide IsTarget;
  }

  lemma UnitTarget(code: Code, a: nat, t: nat)
    ensures t in BranchTargets(Unit(code, a)) <==> TargetOf(code(a)) == Some(t)
  {
    var u := Unit(code, a);
    assert u[0].Insn?;
    assert forall line :: line in u && line.Insn? && line.br.Some? ==> line == u[0];
    if TargetOf(code(a)) == Some(t) {
      assert u[0] in u && u[0].br == Some(t);
    }
  }

  lemma RawBadTargets(code: Code, f: Fn, tail: Body)
    requires WellDecoded(code, f)
    requires forall i :: 0 <= i < |tail| ==> tail[i].ChainReturn?
    ensures forall t: nat :: t in BadTargets(Raw(code, f, 0) + tail) <==> IsTarget(code, f, t) && !Window(f, t)
  {
    var raw := Raw(code, f, 0);
    RawAddrs(code, f, 0);
    AddrsAppend(raw, tail);
    NoAddrs(tail);
    assert Addrs(raw + tail) == Addrs(raw);
    forall t: nat ensures t in BranchTargets(raw + tail) <==> IsTarget(code, f, t) {
      RawTargets(code, f, 0, t);
      assert forall line :: line in raw + tail <==> line in raw || line in tail;
    }
  }

  // ---------------------------------------------------------------- the scripts on an emitted body

  lemma UnitRetargeted(code: Code, f: Fn, i: nat, ts: set<nat>)
    requires f.count > 0 && i < f.count
    requires forall t: nat :: t in ts <==> IsTarget(code, f, t) && !Window(f, t)
    ensures Retarget(Unit(code, Addr(f, i)), ts) == FixedUnit(code, f, Addr(f, i))
  {
    assert TargetOf(code(Addr(f, i))).Some? ==> IsTarget(code, f, TargetOf(code(Addr(f, i))).value);
  }

  lemma RetargetSegment(l: Body, u: Body, a: Body, n: Body, m: Body, e: Body, ts: set<nat>)
    ensures Retarget(l + (u + (a + (n + (m + e)))), ts) ==
            Retarget(l, ts) + (Retarget(u, ts) +
              (Retarget(a, ts) + (Retarget(n, ts) + (Retarget(m, ts) + Retarget(e, ts)))))
  {
    RetargetAppend(l, u + (a + (n + (m + e))), ts);
    RetargetAppend(u, a + (n + (m + e)), ts);
    RetargetAppend(a, n + (m + e), ts);
    RetargetAppend(n, m + e, ts);
    RetargetAppend(m, e, ts);
  }

  /** Labels of the span's own instructions stay, stray labels become notes. */
  lemma LabelsRetargeted(code: Code, f: Fn, i: nat, ts: set<nat>)
    requires WellDecoded(code, f) && i < f.count
    requires forall t: nat :: t in ts <==> IsTarget(code, f, t) && !Window(f, t)
    ensures Retarget(LocalMark(code, f, i), ts) == LocalMark(code, f, i)
    ensures Retarget(Trail(code, f, i), ts) == Trail(code, f, i)
    ensures Retarget(EntryMark(code, f, i), ts) == EntryMark(code, f, i)
    ensures Retarget(Marks(f.stray[i]), ts) == Notes(|f.stray[i]|)
  {
    assert Window(f, Addr(f, i)) && Window(f, f.lo);
    var m := Marks(f.stray[i]);
    assert StraysBelong(code, f, i);
    forall j | 0 <= j < |m| ensures Retarget(m, ts)[j] == Note {
      assert f.stray[i][j] in f.stray[i];
    }
  }

  lemma Assoc(a: Body, b: Body, c: Body)
    ensures (a + b) + c == a + (b + c)
  {
  }

  lemma SegmentWithTail(l: Body, u: Body, a: Body, n: Body, m: Body, e: Body, tail: Body)
    ensures (l + (u + (a + (n + (m + e))))) + tail == l + (u + (a + (n + (m + (e + tail)))))
  {
    Assoc(l, u + (a + (n + (m + e))), tail);
    Assoc(u, a + (n + (m + e)), tail);
    Assoc(a, n + (m + e), tail);
    Assoc(n, m + e, tail);
    Assoc(m, e, tail);
  }

  /** fix_backbranches turns every exit of the span into a tail call and every stray label into a note. */
  lemma {:induction false} RawRetargeted(code: Code, f: Fn, i: nat, tail: Body, ts: set<nat>)
    requires WellDecoded(code, f)
    requires forall t: nat :: t in ts <==> IsTarget(code, f, t) && !Window(f, t)
    requires forall j :: 0 <= j < |tail| ==> tail[j].ChainReturn?
    ensures Retarget(Raw(code, f, i) + tail, ts) == Half(code, f, i, tail)
    decreases f.count - i
  {
    if i >= f.count {
      assert Raw(code, f, i) + tail == tail;
      assert Retarget(tail, ts) == tail;
    } else {
      RawRetargeted(code, f, i + 1, tail, ts);
      UnitRetargeted(code, f, i, ts);
      LabelsRetargeted(code, f, i, ts);
      SegmentWithTail(LocalMark(code, f, i), Unit(code, Addr(f, i)), Trail(code, f, i),
        EntryMark(code, f, i), Marks(f.stray[i]), Raw(code, f, i + 1), tail);
      RetargetSegment(LocalMark(code, f, i), Unit(code, Addr(f, i)), Trail(code, f, i),
        EntryMark(code, f, i), Marks(f.stray[i]), Raw(code, f, i + 1) + tail, ts);
    }
  }

  function RemoveFirst(body: Body, line: Line): Body {
    if body == [] then [] else if body[0] == line then body[1..] else [body[0]] + RemoveFirst(body[1..], line)
  }

  lemma {:induction false} RemoveFirstAt(body: Body, lab: Label)
    requires IndexOfMark(body, lab) < |body|
    ensures var m := IndexOfMark(body, lab); RemoveFirst(body, Mark(lab)) == body[..m] + body[m + 1..]
  {
    if body[0] != Mark(lab) {
      RemoveFirstAt(body[1..], lab);
      CutBehindFirst(body, IndexOfMark(body[1..], lab));
    }
  }

  lemma CutBehindFirst(body: Body, m: nat)
    requires m + 1 < |body|
    ensures [body[0]] + (body[1..][..m] + body[1..][m + 1..]) == body[..m + 1] + body[m + 2..]
  {
  }

  lemma {:induction false} RemoveFirstBehind(a: Body, b: Body, line: Line)
    requires line !in a
    ensures RemoveFirst(a + b, line) == a + RemoveFirst(b, line)
  {
    if a == [] {
      assert a + b == b;
    } else {
      assert (a + b)[1..] == a[1..] + b;
      RemoveFirstBehind(a[1..], b, line);
    }
  }

  lemma RemoveFromSegment(l: Body, u: Body, a: Body, n: Body, m: Body, e: Body, mark: Line)
    requires mark !in l && mark !in u && mark !in a && mark !in m
    requires n == [] || n == [mark]
    ensures RemoveFirst(l + (u + (a + (n + (m + e)))), mark) ==
            l + (u + (a + (m + (if n == [] then RemoveFirst(e, mark) else e))))
  {
    RemoveFirstBehind(l, u + (a + (n + (m + e))), mark);
    RemoveFirstBehind(u, a + (n + (m + e)), mark);
    RemoveFirstBehind(a, n + (m + e), mark);
    if n == [] {
      assert n + (m + e) == m + e;
      RemoveFirstBehind(m, e, mark);
    } else {
      assert (n + (m + e))[1..] == m + e;
    }
  }

  lemma NoEntryMarkInSegment(code: Code, f: Fn, i: nat)
    requires |f.stray| == f.count && i < f.count
    ensures Mark(L(f.lo)) !in LocalMark(code, f, i) && Mark(L(f.lo)) !in FixedUnit(code, f, Addr(f, i))
    ensures Mark(L(f.lo)) !in Trail(code, f, i) && Mark(L(f.lo)) !in Notes(|f.stray[i]|)
  {
    assert forall line :: line in FixedUnit(code, f, Addr(f, i)) ==> !line.Mark?;
  }

  lemma {:induction false} HalfBehindEntry(code: Code, f: Fn, i: nat, tail: Body)
    requires |f.stray| == f.count && f.entryAt < i
    ensures Half(code, f, i, tail) == Fixed(code, f, i, tail)
    decreases f.count - i
  {
    hide FixedUnit, Trail, IsTarget, Notes;
    if i < f.count {
      HalfBehindEntry(code, f, i + 1, tail);
      var n, e := Notes(|f.stray[i]|), Half(code, f, i + 1, tail);
      assert EntryMark(code, f, i) + (n + e) == n + e;
    }
  }

  /** Cutting the entry label out of a half-repaired body leaves the repaired shape. */
  lemma {:induction false} EntryLabelCut(code: Code, f: Fn, i: nat, tail: Body)
    requires |f.stray| == f.count && f.entryAt < f.count && IsTarget(code, f, f.lo)
    requires i <= f.entryAt
    ensures RemoveFirst(Half(code, f, i, tail), Mark(L(f.lo))) == CutLines(code, f, i, tail)
    ensures Mark(L(f.lo)) in Half(code, f, i, tail)
    decreases f.count - i
  {
    hide Half, RemoveFirst, CutLines, IsTarget;
    SegmentCut(code, f, i, tail);
    if i == f.entryAt {
      HalfBehindEntry(code, f, i + 1, tail);
    } else {
      EntryLabelCut(code, f, i + 1, tail);
      CutIsFixed(code, f, i + 1, tail);
    }
    CutForm(code, f, i, tail);
  }

  /** The repaired lines from instruction i on, without the entry label. */
  ghost function CutLines(code: Code, f: Fn, i: nat, tail: Body): Body
    requires |f.stray| == f.count && i < f.count
  {
    if i == 0 then Behind(code, f, 0, tail) else Fixed(code, f, i, tail)
  }

  lemma CutIsFixed(code: Code, f: Fn, i: nat, tail: Body)
    requires |f.stray| == f.count && 0 < i < f.count
    ensures CutLines(code, f, i, tail) == Fixed(code, f, i, tail)
  {
  }

  lemma CutForm(code: Code, f: Fn, i: nat, tail: Body)
    requires |f.stray| == f.count && i < f.count
    ensures CutLines(code, f, i, tail) ==
            LocalMark(code, f, i) + (FixedUnit(code, f, Addr(f, i)) + (Trail(code, f, i) +
              (Notes(|f.stray[i]|) + Fixed(code, f, i + 1, tail))))
  {
    hide FixedUnit, Trail, Notes, IsTarget;
    var behind := Behind(code, f, i, tail);
    assert behind == FixedUnit(code, f, Addr(f, i)) +
                     (Trail(code, f, i) + (Notes(|f.stray[i]|) + Fixed(code, f, i + 1, tail)));
    assert i == 0 ==> LocalMark(code, f, i) + behind == behind;
  }

  /** One segment of the half-repaired body, without the entry label if it is the segment that has it. */
  lemma SegmentCut(code: Code, f: Fn, i: nat, tail: Body)
    requires |f.stray| == f.count && f.entryAt < f.count && IsTarget(code, f, f.lo) && i <= f.entryAt
    ensures var mark, e := Mark(L(f.lo)), Half(code, f, i + 1, tail);
            && (mark in Half(code, f, i, tail) <==> i == f.entryAt || mark in e)
            && RemoveFirst(Half(code, f, i, tail), mark) ==
                 LocalMark(code, f, i) + (FixedUnit(code, f, Addr(f, i)) + (Trail(code, f, i) +
                   (Notes(|f.stray[i]|) + if i == f.entryAt then e else RemoveFirst(e, mark))))
  {
    var mark := Mark(L(f.lo));
    var e := Half(code, f, i + 1, tail);
    NoEntryMarkInSegment(code, f, i);
    InHalf(code, f, i, tail, mark);
    RemoveFromSegment(LocalMark(code, f, i), FixedUnit(code, f, Addr(f, i)), Trail(code, f, i),
      EntryMark(code, f, i), Notes(|f.stray[i]|), e, mark);
    if i == f.entryAt {
      assert mark in EntryMark(code, f, i);
    }
  }

  lemma {:induction false} NoEntryTarget(code: Code, f: Fn, i: nat, tail: Body)
    requires WellDecoded(code, f) && !IsTarget(code, f, f.lo)
    ensures Half(code, f, i, tail) == Fixed(code, f, i, tail)
    decreases f.count - i
  {
    hide FixedUnit, Trail, Notes;
    if i < f.count {
      NoEntryTarget(code, f, i + 1, tail);
      var n := Notes(|f.stray[i]|);
      assert EntryMark(code, f, i) + (n + Half(code, f, i + 1, tail)) == n + Half(code, f, i + 1, tail);
    }
  }

  lemma InSegment(l: Body, u: Body, a: Body, n: Body, m: Body, e: Body, x: Line)
    ensures x in l + (u + (a + (n + (m + e)))) <==> x in l || x in u || x in a || x in n || x in m || x in e
  {
    InAppend(l, u + (a + (n + (m + e))), x);
    InAppend(u, a + (n + (m + e)), x);
    InAppend(a, n + (m + e), x);
    InAppend(n, m + e, x);
    InAppend(m, e, x);
  }

  lemma InAppend(a: Body, b: Body, x: Line)
    ensures x in a + b <==> x in a || x in b
  {
  }

  lemma InHalf(code: Code, f: Fn, i: nat, tail: Body, x: Line)
    requires |f.stray| == f.count && i < f.count
    ensures x in Half(code, f, i, tail) <==>
            x in LocalMark(code, f, i) || x in FixedUnit(code, f, Addr(f, i)) || x in Trail(code, f, i) ||
            x in EntryMark(code, f, i) || x in Notes(|f.stray[i]|) || x in Half(code, f, i + 1, tail)
  {
    InSegment(LocalMark(code, f, i), FixedUnit(code, f, Addr(f, i)), Trail(code, f, i),
      EntryMark(code, f, i), Notes(|f.stray[i]|), Half(code, f, i + 1, tail), x);
  }

  lemma {:induction false} GotoEmitted(code: Code, f: Fn, i: nat, j: nat, tail: Body)
    requires |f.stray| == f.count && i <= j < f.count
    requires TargetOf(code(Addr(f, j))) == Some(f.lo)
    ensures Goto(L(f.lo)) in Half(code, f, i, tail)
    decreases f.count - i
  {
    InHalf(code, f, i, tail, Goto(L(f.lo)));
    if i == j {
      var u := FixedUnit(code, f, Addr(f, i));
      assert u[|u| - 1] == Goto(L(f.lo)) || u[|u| - 2] == Goto(L(f.lo)) || u[|u| - 3] == Goto(L(f.lo));
    } else {
      GotoEmitted(code, f, i + 1, j, tail);
    }
  }

  /** fix_selfentry, given a name it can read, brings the entry label to the front. */
  lemma HalfRepairedEntry(code: Code, f: Fn, tail: Body)
    requires WellDecoded(code, f)
    requires forall j :: 0 <= j < |tail| ==> tail[j].ChainReturn?
    ensures MoveEntryLabel(Half(code, f, 0, tail), f.lo) == Fixed(code, f, 0, tail)
  {
    if IsTarget(code, f, f.lo) {
      EntryLabelCut(code, f, 0, tail);
      var j: nat :| j < f.count && TargetOf(code(Addr(f, j))) == Some(f.lo);
      GotoEmitted(code, f, 0, j, tail);
      StartsWithEntry(code, f, tail);
      LabelMovesToFront(Half(code, f, 0, tail), f.lo);
    } else {
      NoEntryTarget(code, f, 0, tail);
      NoMarkOf(code, f, 0, tail);
    }
  }

  lemma StartsWithEntry(code: Code, f: Fn, tail: Body)
    requires |f.stray| == f.count && f.count > 0
    ensures var half := Half(code, f, 0, tail); half != [] && IsInsnAt(half[0], f.lo)
  {
    assert FixedUnit(code, f, f.lo) != [] && FixedUnit(code, f, f.lo)[0].Insn?;
  }

  lemma LabelMovesToFront(body: Body, a: nat)
    requires body != [] && IsInsnAt(body[0], a) && Mark(L(a)) in body && Goto(L(a)) in body
    ensures MoveEntryLabel(body, a) == [Mark(L(a))] + RemoveFirst(body, Mark(L(a)))
  {
    var m := IndexOfMark(body, L(a));
    IndexIsUnique(body, a, 0);
    RemoveFirstAt(body, L(a));
    FrontForm(body, Mark(L(a)), m);
  }

  lemma FrontForm(body: Body, x: Line, m: nat)
    requires m < |body|
    ensures body[..0] + [x] + body[0..m] + body[m + 1..] == [x] + (body[..m] + body[m + 1..])
  {
    assert body[..0] + [x] == [x];
    assert body[0..m] == body[..m];
  }

  lemma {:induction false} NoMarkOf(code: Code, f: Fn, i: nat, tail: Body)
    requires |f.stray| == f.count && !IsTarget(code, f, f.lo)
    requires Mark(L(f.lo)) !in tail
    ensures Mark(L(f.lo)) !in Half(code, f, i, tail)
    decreases f.count - i
  {
    if i < f.count {
      NoMarkOf(code, f, i + 1, tail);
      NoEntryMarkInSegment(code, f, i);
      InHalf(code, f, i, tail, Mark(L(f.lo)));
    }
  }
}

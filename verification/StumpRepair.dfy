/** `tools/fix_stumps.py`: find the generated bodies whose closing brace can be reached
    and append a tail call to the function that starts right behind their last address. */
module StumpRepair {
  import opened Wrappers
  import opened RecompiledCode

  /** The dictionaries built from dump.toml. */
  datatype Symbols = Symbols(name2sec: map<Name, nat>, bySecVram: map<(nat, nat), Name>, sections: nat)

  /** A generated function: its C name and its body. */
  datatype Gen = Gen(name: Name, body: Body)

  // ---------------------------------------------------------------- end_reachable

  /** What a scan counts: one-line tail calls as exits, labels of any spelling as goto targets. */
  datatype Mode = Mode(tails: bool, every: bool)

  const SCRIPT: Mode := Mode(false, false)   // what the script looks at
  const EVERY: Mode := Mode(false, true)     // the same, but every label
  const FLOW: Mode := Mode(true, true)       // what the flow itself does
  const KNOWN: Mode := Mode(true, false)     // the flow without labels of other spellings

  /** The scan from a line on. */
  function Scan(body: Body, reachable: bool, depth: int, m: Mode): bool {
    if body == [] then reachable
    else Scan(body[1..], AliveAfter(body[0], reachable, depth, m), DepthAfter(body[0], depth), m)
  }

  function AliveAfter(line: Line, reachable: bool, depth: int, m: Mode): bool {
    if depth != 0 then reachable
    else if line.Mark? then reachable || m.every || !line.lab.Other?
    else if line.Return? || line.Goto? || line.ChainReturn? || (m.tails && line.TailCall?) then false
    else reachable
  }

  function DepthAfter(line: Line, depth: int): int {
    if line.IfOpen? then depth + 1 else if line.Close? then depth - 1 else depth
  }

  method EndReachable(body: Body) returns (reachable: bool)
    ensures reachable == Scan(body, true, 0, SCRIPT)
  {
    reachable := true;
    var depth := 0;
    var i := 0;
    while i < |body|
      invariant 0 <= i <= |body|
      invariant Scan(body[i..], reachable, depth, SCRIPT) == Scan(body, true, 0, SCRIPT)
    {
      var line := body[i];
      if depth == 0 {
        if line.Mark? && !line.lab.Other? {
          reachable := true;
        } else if reachable && (line.Return? || line.ChainReturn? || line.Goto?) {
          reachable := false;
        }
      }
      depth := depth + (if line.IfOpen? then 1 else 0) - (if line.Close? then 1 else 0);
      i := i + 1;
      assert body[i - 1..][1..] == body[i..];
    }
    assert body[i..] == [];
  }

  /** Labels at brace depth 0; balanced braces. */
  predicate WellFormed(rest: Body, depth: nat) {
    if rest == [] then depth == 0
    else
      && (rest[0].Mark? ==> depth == 0)
      && (rest[0].Close? ==> depth > 0)
      && WellFormed(rest[1..], DepthAfter(rest[0], depth))
  }

  /** A line the flow can be at: if the scan from here on is alive, so is the whole scan. */
  ghost predicate OnFlow(body: Body, rest: Body, m: Mode) {
    exists d: nat :: WellFormed(rest, d) && (Scan(rest, true, d, m) ==> Scan(body, true, 0, m))
  }

  /** Wherever the state is in fn, now or after a return, it is on the flow. */
  ghost predicate FlowOk(p: Program, fn: Name, s: CState, m: Mode) {
    && fn in p && WellFormed(p[fn], 0)
    && (s.At? ==>
          && (s.fn == fn ==> OnFlow(p[fn], s.rest, m))
          && forall i :: 0 <= i < |s.stack| && s.stack[i].fn == fn ==> OnFlow(p[fn], s.stack[i].rest, m))
  }

  /** Inside a block no line changes the verdict, so skipping the innermost open block keeps it. */
  lemma {:induction false} SkipsInnerBlock(rest: Body, inner: nat, outer: nat, reachable: bool, m: Mode)
    requires inner > 0 && WellFormed(rest, inner + outer)
    ensures AfterClose(rest, inner).Some?
    ensures WellFormed(AfterClose(rest, inner).value, outer)
    ensures Scan(rest, reachable, inner + outer, m) == Scan(AfterClose(rest, inner).value, reachable, outer, m)
  {
    if rest[0].IfOpen? {
      SkipsInnerBlock(rest[1..], inner + 1, outer, reachable, m);
    } else if rest[0].Close? {
      if inner > 1 {
        SkipsInnerBlock(rest[1..], inner - 1, outer, reachable, m);
      }
    } else {
      SkipsInnerBlock(rest[1..], inner, outer, reachable, m);
    }
  }

  /** Behind a label the scan no longer depends on what came before it. */
  lemma {:induction false} MarkRevives(body: Body, d: nat, lab: Label, reachable: bool, m: Mode)
    requires WellFormed(body, d) && FindMark(body, lab).Some? && (m.every || !lab.Other?)
    ensures WellFormed(FindMark(body, lab).value, 0)
    ensures Scan(body, reachable, d, m) == Scan(FindMark(body, lab).value, true, 0, m)
  {
    if body[0] != Mark(lab) {
      MarkRevives(body[1..], DepthAfter(body[0], d), lab, AliveAfter(body[0], reachable, d, m), m);
    }
  }

  lemma FlowStep(p: Program, cond: seq<nat> -> bool, fn: Name, s: CState, m: Mode)
    requires FlowOk(p, fn, s, m) && m.every
    ensures FlowOk(p, fn, CStep(p, cond, s), m)
  {
    if s.At? && s.rest != [] {
      if s.rest[0].TailCall? || s.rest[0].ChainReturn? {
        assert OnFlow(p[fn], p[fn], m);
      } else if s.fn == fn {
        LineStep(p, cond, fn, s, m);
      } else {
        assert OnFlow(p[fn], p[fn], m);
      }
    }
  }

  lemma LineStep(p: Program, cond: seq<nat> -> bool, fn: Name, s: CState, m: Mode)
    requires FlowOk(p, fn, s, m) && m.every
    requires s.At? && s.fn == fn && s.rest != [] && !s.rest[0].TailCall? && !s.rest[0].ChainReturn?
    ensures FlowOk(p, fn, CStep(p, cond, s), m)
  {
    var rest, body := s.rest, p[fn];
    var d: nat :| WellFormed(rest, d) && (Scan(rest, true, d, m) ==> Scan(body, true, 0, m));
    assert OnFlow(body, body, m);
    if rest[0].Goto? {
      if FindMark(body, rest[0].lab).Some? {
        MarkRevives(body, 0, rest[0].lab, true, m);
      }
    } else if rest[0].IfOpen? && !cond(s.trace) {
      SkipsInnerBlock(rest[1..], 1, d, true, m);
      assert WellFormed(AfterClose(rest[1..], 1).value, d);
    } else if !rest[0].Return? {
      assert WellFormed(rest[1..], DepthAfter(rest[0], d)) && OnFlow(body, rest[1..], m);
    }
  }

  lemma {:induction false} FlowRun(p: Program, cond: seq<nat> -> bool, fn: Name, s: CState, k: nat, m: Mode)
    requires FlowOk(p, fn, s, m) && m.every
    ensures FlowOk(p, fn, CRun(p, cond, s, k), m)
  {
    if k > 0 {
      FlowRun(p, cond, fn, s, k - 1, m);
      FlowStep(p, cond, fn, CRun(p, cond, s, k - 1), m);
    }
  }

  /** At the closing brace the whole scan is alive. */
  lemma AtTheBrace(p: Program, fn: Name, s: CState, m: Mode)
    requires FlowOk(p, fn, s, m) && s.At? && s.fn == fn && s.rest == []
    ensures Scan(p[fn], true, 0, m)
  {
    var d: nat :| WellFormed(s.rest, d) && (Scan(s.rest, true, d, m) ==> Scan(p[fn], true, 0, m));
  }

  /** A body whose end is dead when every label counts never reaches its closing brace, whatever the branch outcomes
      and whatever other functions it calls or goes through. */
  lemma {:induction false} UnreachableEndNeverFalls(p: Program, cond: seq<nat> -> bool, fn: Name, h: seq<nat>, k: nat)
    requires fn in p && WellFormed(p[fn], 0)
    requires !Scan(p[fn], true, 0, EVERY)
    ensures var t := CRun(p, cond, At(fn, p[fn], [], h), k); !(t.Fell? && t.fn == fn)
  {
    if k > 0 {
      var s := At(fn, p[fn], [], h);
      UnreachableEndNeverFalls(p, cond, fn, h, k - 1);
      assert OnFlow(p[fn], p[fn], EVERY);
      FlowRun(p, cond, fn, s, k - 1, EVERY);
      var before := CRun(p, cond, s, k - 1);
      if before.At? && before.fn == fn && before.rest == [] {
        AtTheBrace(p, fn, before, EVERY);
      }
    }
  }

  /** Without labels of other spellings that is what the script computes. */
  lemma {:induction false} KnownLabelsSuffice(body: Body, reachable: bool, depth: int)
    requires forall line :: line in body && line.Mark? ==> !line.lab.Other?
    ensures Scan(body, reachable, depth, SCRIPT) == Scan(body, reachable, depth, EVERY)
  {
    if body != [] {
      KnownLabelsSuffice(body[1..], AliveAfter(body[0], reachable, depth, SCRIPT), DepthAfter(body[0], depth));
    }
  }

  // ---------------------------------------------------------------- chaining

  function Addrs(body: Body): seq<nat> {
    if body == [] then []
    else (if body[0].Insn? then [body[0].addr] else []) + Addrs(body[1..])
  }

  method DecodedAddrs(body: Body) returns (addrs: seq<nat>)
    ensures addrs == Addrs(body)
  {
    addrs := [];
    var i := 0;
    while i < |body|
      invariant 0 <= i <= |body|
      invariant addrs + Addrs(body[i..]) == Addrs(body)
    {
      if body[i].Insn? {
        addrs := addrs + [body[i].addr];
      }
      i := i + 1;
      assert body[i - 1..][1..] == body[i..];
    }
    assert body[i..] == [];
  }

  /** The section the script assigns to a generated function; None prints SKIP. */
  function StumpSection(sy: Symbols, name: Name): Option<nat> {
    if name in sy.name2sec then Some(sy.name2sec[name])
    else if name.Static? && name.section < sy.sections then Some(name.section)
    else None
  }

  /** The function that starts at an address of a section: a dumped symbol first, else a static. */
  function Successor(sy: Symbols, names: set<Name>, sec: nat, addr: nat): Option<Name> {
    if (sec, addr) in sy.bySecVram then Some(sy.bySecVram[(sec, addr)])
    else if Static(sec, addr) in names then Some(Static(sec, addr))
    else None
  }

  datatype Verdict = Kept | Skipped | Warned | Chained(successor: Name)

  function StumpVerdict(sy: Symbols, names: set<Name>, g: Gen): Verdict {
    if !Scan(g.body, true, 0, SCRIPT) || Addrs(g.body) == [] then Kept
    else
      match StumpSection(sy, g.name)
      case None => Skipped
      case Some(sec) =>
        var addrs := Addrs(g.body);
        match Successor(sy, names, sec, addrs[|addrs| - 1] + 4)
        case None => Warned
        case Some(n) => Chained(n)
  }

  function Chain(g: Gen, v: Verdict): Gen {
    if v.Chained? then g.(body := g.body + [ChainReturn(v.successor)]) else g
  }

  function GenNames(gens: seq<Gen>): set<Name> {
    set g | g in gens :: g.name
  }

  // ---------------------------------------------------------------- what the tables say, apart from the script

  /** The dump has the name in this section, or does not have it and it is a static of an existing one. */
  ghost predicate InSection(sy: Symbols, name: Name, sec: nat) {
    if name in sy.name2sec then sy.name2sec[name] == sec else name.Static? && name.section == sec && sec < sy.sections
  }

  /** A function starts at this address of a section: the dump has it there, or nothing there and it was generated as
      a static. */
  ghost predicate StartsAt(sy: Symbols, names: set<Name>, sec: nat, addr: nat, fn: Name) {
    if (sec, addr) in sy.bySecVram then fn == sy.bySecVram[(sec, addr)] else fn == Static(sec, addr) && fn in names
  }

  /** Line i is the last that decodes an instruction. */
  ghost predicate LastInsn(body: Body, i: nat) {
    i < |body| && body[i].Insn? && forall j :: i < j < |body| ==> !body[j].Insn?
  }

  /** The last line of the body that decodes an instruction decodes the one at a. */
  ghost predicate LastDecoded(body: Body, a: nat) {
    exists i: nat :: LastInsn(body, i) && body[i].addr == a
  }

  /** fn starts right behind the last decoded address of g, in g's section. */
  ghost predicate Follows(sy: Symbols, names: set<Name>, g: Gen, fn: Name) {
    exists sec: nat, a: nat ::
      InSection(sy, g.name, sec) && LastDecoded(g.body, a) && StartsAt(sy, names, sec, a + 4, fn)
  }

  ghost predicate HasFollower(sy: Symbols, names: set<Name>, g: Gen) {
    exists fn :: Follows(sy, names, g, fn)
  }

  /** The script calls the end of the body alive, and there is something to decode. */
  ghost predicate FallsOff(g: Gen) {
    Scan(g.body, true, 0, SCRIPT) && exists a: nat :: LastDecoded(g.body, a)
  }

  lemma {:induction false} LastAddr(body: Body, a: nat)
    ensures LastDecoded(body, a) <==> Addrs(body) != [] && Addrs(body)[|Addrs(body)| - 1] == a
  {
    hide LastInsn, LastDecoded;
    if body == [] {
      NothingDecoded(a);
    } else {
      LastAddr(body[1..], a);
      NoneDecoded(body[1..]);
      LastStep(body, a);
    }
  }

  lemma NothingDecoded(a: nat)
    ensures !LastDecoded([], a)
  {
  }

  lemma {:induction false} NoneDecoded(body: Body)
    ensures Addrs(body) == [] <==> forall i :: 0 <= i < |body| ==> !body[i].Insn?
  {
    if body != [] {
      NoneDecoded(body[1..]);
      assert forall i :: 0 < i < |body| ==> body[i] == body[1..][i - 1];
    }
  }

  lemma LastBehind(body: Body, i: nat)
    requires body != []
    ensures LastInsn(body[1..], i) <==> LastInsn(body, i + 1)
  {
    var rest := body[1..];
    assert forall j :: 0 <= j < |rest| ==> rest[j] == body[j + 1];
    assert forall j :: 0 < j < |body| ==> body[j] == rest[j - 1];
  }

  lemma LastStep(body: Body, a: nat)
    requires body != []
    ensures LastDecoded(body, a) <==>
            LastDecoded(body[1..], a) ||
            (body[0].Insn? && body[0].addr == a && forall i :: 0 <= i < |body| - 1 ==> !body[1..][i].Insn?)
  {
    LastFirst(body);
    hide LastInsn;
    var rest := body[1..];
    if i: nat :| LastInsn(body, i) && i < |body| && body[i].addr == a {
      if i > 0 {
        LastBehind(body, i - 1);
        assert rest[i - 1] == body[i];
      }
    }
    if i: nat :| LastInsn(rest, i) && i < |rest| && rest[i].addr == a {
      LastBehind(body, i);
      assert body[i + 1] == rest[i];
    }
  }

  lemma LastFirst(body: Body)
    requires body != []
    ensures LastInsn(body, 0) <==> body[0].Insn? && forall i :: 0 <= i < |body| - 1 ==> !body[1..][i].Insn?
    ensures forall i: nat :: LastInsn(body, i) ==> i < |body|
    ensures forall i: nat :: LastInsn(body[1..], i) ==> i < |body| - 1
  {
    var rest := body[1..];
    assert forall j :: 0 <= j < |rest| ==> rest[j] == body[j + 1];
    assert forall j :: 0 < j < |body| ==> body[j] == rest[j - 1];
  }

  /** The verdict in the terms of the tables. */
  lemma VerdictIs(sy: Symbols, names: set<Name>, g: Gen)
    ensures var v := StumpVerdict(sy, names, g);
            && (v.Kept? <==> !FallsOff(g))
            && (FallsOff(g) ==> (v.Chained? <==> HasFollower(sy, names, g)))
            && (v.Chained? ==> forall fn :: Follows(sy, names, g, fn) <==> fn == v.successor)
  {
    hide Scan;
    var addrs := Addrs(g.body);
    forall a: nat ensures LastDecoded(g.body, a) <==> addrs != [] && addrs[|addrs| - 1] == a {
      LastAddr(g.body, a);
    }
    hide LastDecoded, Addrs;
    if addrs != [] {
      assert LastDecoded(g.body, addrs[|addrs| - 1]);
      forall fn ensures Follows(sy, names, g, fn) <==>
          exists sec: nat :: InSection(sy, g.name, sec) && StartsAt(sy, names, sec, addrs[|addrs| - 1] + 4, fn) {
      }
      FollowersOf(sy, names, g, addrs[|addrs| - 1] + 4);
      var v := StumpVerdict(sy, names, g);
      if v.Chained? {
        assert Follows(sy, names, g, v.successor);
      }
    }
  }

  lemma FollowersOf(sy: Symbols, names: set<Name>, g: Gen, addr: nat)
    ensures var sec := StumpSection(sy, g.name);
            forall fn :: (exists s: nat :: InSection(sy, g.name, s) && StartsAt(sy, names, s, addr, fn)) <==>
              sec.Some? && Successor(sy, names, sec.value, addr) == Some(fn)
  {
    var sec := StumpSection(sy, g.name);
    assert forall s: nat :: InSection(sy, g.name, s) <==> sec == Some(s);
  }

  /** Every function whose end is alive is chained to the function right behind it, in the same section, exactly if
      there is one; no other function is touched. */
  method ChainStumps(sy: Symbols, gens: seq<Gen>) returns (out: seq<Gen>, complaints: nat)
    ensures |out| == |gens|
    ensures forall i :: 0 <= i < |gens| ==> out[i] == Chain(gens[i], StumpVerdict(sy, GenNames(gens), gens[i]))
    ensures forall i, fn :: 0 <= i < |gens| && FallsOff(gens[i]) && Follows(sy, GenNames(gens), gens[i], fn) ==>
              out[i] == Gen(gens[i].name, gens[i].body + [ChainReturn(fn)])
    ensures forall i :: 0 <= i < |gens| && !(FallsOff(gens[i]) && HasFollower(sy, GenNames(gens), gens[i])) ==>
              out[i] == gens[i]
    ensures complaints == 0 <==>
            forall i :: 0 <= i < |gens| ==> FallsOff(gens[i]) ==> HasFollower(sy, GenNames(gens), gens[i])
    ensures complaints == 0 <==>
            forall i :: 0 <= i < |gens| ==>
              StumpVerdict(sy, GenNames(gens), gens[i]).Kept? || StumpVerdict(sy, GenNames(gens), gens[i]).Chained?
  {
    out, complaints := ChainByVerdict(sy, gens);
    forall i | 0 <= i < |gens|
      ensures var v := StumpVerdict(sy, GenNames(gens), gens[i]);
              && (v.Kept? <==> !FallsOff(gens[i]))
              && (FallsOff(gens[i]) ==> (v.Chained? <==> HasFollower(sy, GenNames(gens), gens[i])))
              && (v.Chained? ==> forall fn :: Follows(sy, GenNames(gens), gens[i], fn) <==> fn == v.successor)
    {
      VerdictIs(sy, GenNames(gens), gens[i]);
    }
    hide StumpVerdict, FallsOff, Follows;
  }

  /** The script's loop. */
  method ChainByVerdict(sy: Symbols, gens: seq<Gen>) returns (out: seq<Gen>, complaints: nat)
    ensures |out| == |gens|
    ensures forall i :: 0 <= i < |gens| ==> out[i] == Chain(gens[i], StumpVerdict(sy, GenNames(gens), gens[i]))
    ensures complaints == 0 <==>
            forall i :: 0 <= i < |gens| ==>
              StumpVerdict(sy, GenNames(gens), gens[i]).Kept? || StumpVerdict(sy, GenNames(gens), gens[i]).Chained?
  {
    var names := set g | g in gens :: g.name;
    out := [];
    complaints := 0;
    for i := 0 to |gens|
      invariant |out| == i
      invariant forall j :: 0 <= j < i ==> out[j] == Chain(gens[j], StumpVerdict(sy, GenNames(gens), gens[j]))
      invariant complaints == 0 <==>
                forall j :: 0 <= j < i ==>
                  StumpVerdict(sy, GenNames(gens), gens[j]).Kept? || StumpVerdict(sy, GenNames(gens), gens[j]).Chained?
    {
      var g := gens[i];
      var reachable := EndReachable(g.body);
      var addrs := DecodedAddrs(g.body);
      if !reachable || addrs == [] {
        out := out + [g];
      } else {
        var sec: Option<nat> := StumpSection(sy, g.name);
        if sec.None? {
          complaints := complaints + 1;
          out := out + [g];
        } else {
          var succ := Successor(sy, names, sec.value, addrs[|addrs| - 1] + 4);
          if succ.None? {
            complaints := complaints + 1;
            out := out + [g];
          } else {
            out := out + [g.(body := g.body + [ChainReturn(succ.value)])];
          }
        }
      }
    }
  }

  lemma {:induction false} ScanAppend(front: Body, back: Body, reachable: bool, depth: nat, m: Mode)
    requires WellFormed(front, depth)
    ensures Scan(front + back, reachable, depth, m) == Scan(back, Scan(front, reachable, depth, m), 0, m)
  {
    if front == [] {
      assert front + back == back;
    } else {
      assert (front + back)[1..] == front[1..] + back;
      ScanAppend(front[1..], back, AliveAfter(front[0], reachable, depth, m), DepthAfter(front[0], depth), m);
    }
  }

  /** A second run of the script leaves a chained body alone. */
  lemma ChainingIsIdempotent(sy: Symbols, names: set<Name>, g: Gen)
    requires WellFormed(g.body, 0)
    ensures var once := Chain(g, StumpVerdict(sy, names, g));
            Chain(once, StumpVerdict(sy, names, once)) == once
  {
    var v := StumpVerdict(sy, names, g);
    if v.Chained? {
      ScanAppend(g.body, [ChainReturn(v.successor)], true, 0, SCRIPT);
    }
  }
}

/** The two languages that the repair scripts of `tools/` connect: the MIPS code of
    one section, and the C bodies N64Recomp generates from it, one line a value.

    Every conditional is resolved by an arbitrary function of the addresses visited so
    far, so a statement over all such functions covers every data-dependent outcome. */
module RecompiledCode {
  import opened Wrappers

  /** `func_X`, `func_X_section`, `static_section_X`, or a hand-given symbol. */
  datatype Name = Func(addr: nat) | FuncIn(addr: nat, section: nat) | Static(section: nat, addr: nat) | Custom(id: nat)

  // ---------------------------------------------------------------- MIPS side

  /** What an instruction does to control. Every kind but Plain owns the delay slot after it, and Likely
      runs it only when taken. `name` is the C name emitted for the function at the other end. */
  datatype Instr =
    | Plain
    | Call(callee: Option<nat>, name: Name)   // jal; no address for a function of another section
    | Branch(target: nat)                     // b<condition>
    | Likely(target: nat)                     // b<condition>l
    | Jump(target: nat)                       // b
    | Leave(target: nat, name: Name)          // j to another function
    | Ret                                     // jr $ra

  type Code = nat -> Instr

  /** `stack` holds the return addresses, the latest first. */
  datatype Machine = Running(pc: nat, stack: seq<nat>, trace: seq<nat>) | Halted(trace: seq<nat>)

  /** A function of another section is taken to come back; its own visits are not recorded. */
  function MStep(code: Code, cond: seq<nat> -> bool, m: Machine): Machine {
    match m
    case Halted(_) => m
    case Running(a, z, h) =>
      var h2 := h + [a, a + 4];
      match code(a)
      case Plain => Running(a + 4, z, h + [a])
      case Call(callee, _) => if callee.Some? then Running(callee.value, [a + 8] + z, h2) else Running(a + 8, z, h2)
      case Branch(t) => Running(if cond(h + [a]) then t else a + 8, z, h2)
      case Likely(t) => if cond(h + [a]) then Running(t, z, h2) else Running(a + 8, z, h + [a])
      case Jump(t) => Running(t, z, h2)
      case Leave(t, _) => Running(t, z, h2)
      case Ret => if z == [] then Halted(h2) else Running(z[0], z[1..], h2)
  }

  function MRun(code: Code, cond: seq<nat> -> bool, m: Machine, k: nat): Machine {
    if k == 0 then m else MStep(code, cond, MRun(code, cond, m, k - 1))
  }

  // ---------------------------------------------------------------- C side

  /** `L_X:`, `after_N:`, or a label of any other spelling, such as `skip_N:`. */
  datatype Label = L(addr: nat) | After(site: nat) | Other(id: nat)

  datatype Line =
    | Note                                // blank or comment-only line
    | Insn(addr: nat, br: Option<nat>)    // decode comment (with the L_ target it shows) and its straight-line code
    | IfOpen                              // if (...) {
    | Close                               // }
    | Goto(lab: Label)                    // goto lab;
    | Mark(lab: Label)                    // lab:
    | Return                              // return;
    | CallTo(callee: Name)                // callee(rdram, ctx);
    | TailCall(callee: Name)              // { callee(rdram, ctx); return; } on one line
    | ChainReturn(callee: Name)           // callee(rdram, ctx); then return; on a line of its own

  type Body = seq<Line>

  /** The lines behind the first occurrence of the label. */
  function FindMark(body: Body, lab: Label): Option<Body> {
    if body == [] then None
    else if body[0] == Mark(lab) then Some(body[1..])
    else FindMark(body[1..], lab)
  }

  /** The lines behind the brace that closes `depth` open blocks; None if there is none. */
  function AfterClose(rest: Body, depth: nat): Option<Body>
    requires depth > 0
  {
    if rest == [] then None
    else if rest[0].IfOpen? then AfterClose(rest[1..], depth + 1)
    else if rest[0].Close? then if depth == 1 then Some(rest[1..]) else AfterClose(rest[1..], depth - 1)
    else AfterClose(rest[1..], depth)
  }

  type Program = map<Name, Body>

  /** A call in progress: where to go on in the caller. */
  datatype Frame = Frame(fn: Name, rest: Body)

  /** `At` carries the lines still to run and the callers, the latest first; `Fell` means the closing brace was
      reached with no return, `Stuck` a jump to something that does not exist. */
  datatype CState =
    | At(fn: Name, rest: Body, stack: seq<Frame>, trace: seq<nat>)
    | Done(trace: seq<nat>)
    | Fell(fn: Name, trace: seq<nat>)
    | Stuck(trace: seq<nat>)

  function Enter(p: Program, callee: Name, z: seq<Frame>, h: seq<nat>): CState {
    if callee in p then At(callee, p[callee], z, h) else Stuck(h)
  }

  /** A call of a function outside the program is taken to come back. */
  function CStep(p: Program, cond: seq<nat> -> bool, s: CState): CState {
    match s
    case Done(_) => s
    case Fell(_, _) => s
    case Stuck(_) => s
    case At(fn, rest, z, h) =>
      if rest == [] then Fell(fn, h) else
      match rest[0]
      case Insn(a, _) => At(fn, rest[1..], z, h + [a])
      case IfOpen =>
        if cond(h) then At(fn, rest[1..], z, h) else
        (match AfterClose(rest[1..], 1) case Some(r) => At(fn, r, z, h) case None => Stuck(h))
      case Goto(lab) =>
        if fn !in p then Stuck(h) else
        (match FindMark(p[fn], lab) case Some(r) => At(fn, r, z, h) case None => Stuck(h))
      case CallTo(callee) =>
        if callee in p then At(callee, p[callee], [Frame(fn, rest[1..])] + z, h) else At(fn, rest[1..], z, h)
      case Return => if z == [] then Done(h) else At(z[0].fn, z[0].rest, z[1..], h)
      case TailCall(callee) => Enter(p, callee, z, h)
      case ChainReturn(callee) => Enter(p, callee, z, h)
      case _ => At(fn, rest[1..], z, h)
  }

  function CRun(p: Program, cond: seq<nat> -> bool, s: CState, k: nat): CState {
    if k == 0 then s else CStep(p, cond, CRun(p, cond, s, k - 1))
  }

  // ---------------------------------------------------------------- generic facts

  lemma {:induction false} CRunAppend(p: Program, cond: seq<nat> -> bool, s: CState, j: nat, k: nat)
    ensures CRun(p, cond, s, j + k) == CRun(p, cond, CRun(p, cond, s, j), k)
  {
    if k > 0 {
      CRunAppend(p, cond, s, j, k - 1);
    }
  }

  lemma {:induction false} CRunTerminal(p: Program, cond: seq<nat> -> bool, s: CState, k: nat)
    requires !s.At?
    ensures CRun(p, cond, s, k) == s
  {
    if k > 0 {
      CRunTerminal(p, cond, s, k - 1);
    }
  }

  lemma {:induction false} CRunTraceGrows(p: Program, cond: seq<nat> -> bool, s: CState, k: nat)
    ensures s.trace <= CRun(p, cond, s, k).trace
  {
    if k > 0 {
      CRunTraceGrows(p, cond, s, k - 1);
    }
  }

  lemma {:induction false} FindMarkBehind(front: Body, back: Body, lab: Label)
    requires Mark(lab) !in front
    ensures FindMark(front + back, lab) == FindMark(back, lab)
  {
    if front == [] {
      assert front + back == back;
    } else {
      assert (front + back)[1..] == front[1..] + back;
      FindMarkBehind(front[1..], back, lab);
    }
  }
}

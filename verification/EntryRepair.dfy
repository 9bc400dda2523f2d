/** `tools/fix_selfentry.py`: the label of a function's own entry moves in front of the entry instruction. */
module EntryRepair {
  import opened Wrappers
  import opened RecompiledCode
  import opened StumpRepair

  /** The entry address the script reads off a name; it only knows `func_X` and `static_S_X`. */
  function EntryOf(name: Name): Option<nat> {
    match name
    case Func(a) => Some(a)
    case Static(_, a) => Some(a)
    case _ => None
  }

  function IndexOfMark(body: Body, lab: Label): (i: nat)
    ensures i <= |body| && (i < |body| ==> body[i] == Mark(lab))
    ensures forall j :: 0 <= j < i ==> body[j] != Mark(lab)
  {
    if body == [] || body[0] == Mark(lab) then 0 else 1 + IndexOfMark(body[1..], lab)
  }

  predicate IsInsnAt(line: Line, a: nat) {
    line.Insn? && line.addr == a
  }

  function IndexOfInsn(body: Body, a: nat): (i: nat)
    ensures i <= |body| && (i < |body| ==> IsInsnAt(body[i], a))
    ensures forall j :: 0 <= j < i ==> !IsInsnAt(body[j], a)
  {
    if body == [] || IsInsnAt(body[0], a) then 0 else 1 + IndexOfInsn(body[1..], a)
  }

  function MoveEntryLabel(body: Body, a: nat): Body {
    var m, i := IndexOfMark(body, L(a)), IndexOfInsn(body, a);
    if m == |body| || Goto(L(a)) !in body || i == |body| || m < i then body
    else
      body[..i] + [Mark(L(a))] + body[i..m] + body[m + 1..]
  }

  function FixEntry(g: Gen): Gen {
    if EntryOf(g.name).Some? then g.(body := MoveEntryLabel(g.body, EntryOf(g.name).value)) else g
  }

  /** The script's work on one matched function: search, cut the label line out, search again, paste. */
  method FixSelfEntry(g: Gen) returns (out: Gen)
    ensures out == FixEntry(g)
  {
    var entry := EntryOf(g.name);
    if entry.None? {
      return g;
    }
    var a := entry.value;
    var body := g.body;
    var m := 0;
    while m < |body| && body[m] != Mark(L(a))
      invariant 0 <= m <= IndexOfMark(body, L(a))
      invariant forall j :: 0 <= j < m ==> body[j] != Mark(L(a))
    {
      m := m + 1;
    }
    assert m == IndexOfMark(body, L(a));
    if m == |body| || Goto(L(a)) !in body {
      return g;
    }
    var i := FindInsn(body, a);
    if i == |body| || m < i {
      return g;
    }
    var cut := body[..m] + body[m + 1..];
    var i' := FindInsn(cut, a);
    CutKeepsIndex(body, a, m);
    out := g.(body := cut[..i'] + [Mark(L(a))] + cut[i'..]);
    PasteForm(body, [Mark(L(a))], i, m);
  }

  /** Cutting a line behind the first decode of a leaves that decode where it was. */
  lemma CutKeepsIndex(body: Body, a: nat, m: nat)
    requires IndexOfInsn(body, a) < m < |body|
    ensures IndexOfInsn(body[..m] + body[m + 1..], a) == IndexOfInsn(body, a)
  {
    hide IndexOfInsn;
    var cut, i := body[..m] + body[m + 1..], IndexOfInsn(body, a);
    assert forall j :: 0 <= j < m ==> cut[j] == body[j];
    IndexIsUnique(cut, a, i);
  }

  lemma PasteForm(body: Body, x: Body, i: nat, m: nat)
    requires i <= m < |body|
    ensures var cut := body[..m] + body[m + 1..]; cut[..i] + x + cut[i..] == body[..i] + x + body[i..m] + body[m + 1..]
  {
    var cut := body[..m] + body[m + 1..];
    assert cut[..i] == body[..i];
    assert cut[i..] == body[i..m] + body[m + 1..];
  }

  method FindInsn(body: Body, a: nat) returns (i: nat)
    ensures i == IndexOfInsn(body, a)
  {
    i := 0;
    while i < |body| && !IsInsnAt(body[i], a)
      invariant 0 <= i <= IndexOfInsn(body, a)
      invariant forall j :: 0 <= j < i ==> !IsInsnAt(body[j], a)
    {
      i := i + 1;
    }
  }

  lemma {:induction false} IndexIsUnique(body: Body, a: nat, i: nat)
    requires i < |body| && IsInsnAt(body[i], a) && forall j :: 0 <= j < i ==> !IsInsnAt(body[j], a)
    ensures IndexOfInsn(body, a) == i
  {
    if i < IndexOfInsn(body, a) {
      assert false;
    }
  }
}

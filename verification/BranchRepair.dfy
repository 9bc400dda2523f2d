/** `tools/fix_backbranches.py`: branch targets outside the decoded span become tail calls. */
module BranchRepair {
  import opened Wrappers
  import opened RecompiledCode
  import opened StumpRepair

  function Min(s: seq<nat>): (m: nat)
    requires s != []
    ensures m in s && forall i :: 0 <= i < |s| ==> m <= s[i]
  {
    if |s| == 1 then s[0] else var m := Min(s[1..]); if s[0] < m then s[0] else m
  }

  function Max(s: seq<nat>): (m: nat)
    requires s != []
    ensures m in s && forall i :: 0 <= i < |s| ==> s[i] <= m
  {
    if |s| == 1 then s[0] else var m := Max(s[1..]); if s[0] > m then s[0] else m
  }

  /** The window [lo, max + 8) inside which a target counts as local. */
  predicate InWindow(addrs: seq<nat>, t: nat)
    requires addrs != []
  {
    Min(addrs) <= t < Max(addrs) + 8
  }

  function BranchTargets(body: Body): set<nat> {
    set line | line in body && line.Insn? && line.br.Some? :: line.br.value
  }

  function BadTargets(body: Body): set<nat> {
    var addrs := Addrs(body);
    if addrs == [] then {} else set t | t in BranchTargets(body) && !InWindow(addrs, t)
  }

  /** The section this script assigns: unlike fix_stumps it also reads it off `func_X_section`. */
  function BranchSection(sy: Symbols, name: Name): Option<nat> {
    if name in sy.name2sec then Some(sy.name2sec[name])
    else if name.Static? && name.section < sy.sections then Some(name.section)
    else if name.FuncIn? then Some(name.section)
    else None
  }

  predicate HasFunction(sy: Symbols, name: Name, t: nat) {
    BranchSection(sy, name).Some? && (BranchSection(sy, name).value, t) in sy.bySecVram
  }

  function Available(sy: Symbols, name: Name, ts: set<nat>): set<nat> {
    set t | t in ts && HasFunction(sy, name, t)
  }

  function RetargetLine(line: Line, ts: set<nat>): Line {
    match line
    case Goto(L(t)) => if t in ts then TailCall(Func(t)) else line
    case Mark(L(t)) => if t in ts then Note else line
    case _ => line
  }

  function Retarget(body: Body, ts: set<nat>): (r: Body)
    ensures |r| == |body|
    ensures forall i :: 0 <= i < |body| ==> r[i] == RetargetLine(body[i], ts)
  {
    if body == [] then [] else [RetargetLine(body[0], ts)] + Retarget(body[1..], ts)
  }

  lemma RetargetCompose(body: Body, s: set<nat>, t: nat)
    ensures Retarget(Retarget(body, s), {t}) == Retarget(body, s + {t})
  {
    var l, r := Retarget(Retarget(body, s), {t}), Retarget(body, s + {t});
    forall i | 0 <= i < |body| ensures l[i] == r[i] {
      assert RetargetLine(RetargetLine(body[i], s), {t}) == RetargetLine(body[i], s + {t});
    }
  }

  lemma RetargetNothing(body: Body)
    ensures Retarget(body, {}) == body
  {
    forall i | 0 <= i < |body| ensures Retarget(body, {})[i] == body[i] {
    }
  }

  lemma RetargetAppend(a: Body, b: Body, ts: set<nat>)
    ensures Retarget(a + b, ts) == Retarget(a, ts) + Retarget(b, ts)
  {
  }

  function FixableTargets(sy: Symbols, g: Gen): set<nat> {
    Available(sy, g.name, BadTargets(g.body))
  }

  function FixBranches(sy: Symbols, g: Gen): Gen {
    g.(body := Retarget(g.body, FixableTargets(sy, g)))
  }

  method CollectBadTargets(body: Body, lo: nat, hi: nat) returns (bad: set<nat>)
    ensures bad == set t | t in BranchTargets(body) && !(lo <= t < hi)
  {
    bad := {};
    for i := 0 to |body|
      invariant bad == set t | t in BranchTargets(body[..i]) && !(lo <= t < hi)
    {
      assert body[..i + 1] == body[..i] + [body[i]];
      assert forall t :: t in BranchTargets(body[..i + 1]) <==>
          t in BranchTargets(body[..i]) || (body[i].Insn? && body[i].br == Some(t)) by {
        assert forall line :: line in body[..i + 1] <==> line in body[..i] || line == body[i];
      }
      if body[i].Insn? && body[i].br.Some? && !(lo <= body[i].br.value < hi) {
        bad := bad + {body[i].br.value};
      }
    }
    assert body[..|body|] == body;
  }

  method Span(addrs: seq<nat>) returns (lo: nat, hi: nat)
    requires addrs != []
    ensures lo == Min(addrs) && hi == Max(addrs)
  {
    lo, hi := addrs[0], addrs[0];
    for i := 1 to |addrs|
      invariant lo in addrs && hi in addrs
      invariant forall j :: 0 <= j < i ==> lo <= addrs[j] <= hi
    {
      if addrs[i] < lo { lo := addrs[i]; }
      if addrs[i] > hi { hi := addrs[i]; }
    }
  }

  /** The script's inner loop over the bad targets of one body. */
  method RewriteTargets(sy: Symbols, name: Name, body: Body, bad: set<nat>) returns (newbody: Body, missing: nat)
    ensures newbody == Retarget(body, Available(sy, name, bad))
    ensures missing == 0 <==> forall t :: t in bad ==> HasFunction(sy, name, t)
  {
    hide HasFunction, Retarget;
    missing := 0;
    newbody := body;
    var todo := bad;
    RetargetNothing(body);
    while todo != {}
      invariant todo <= bad
      invariant newbody == Retarget(body, Available(sy, name, bad - todo))
      invariant missing == 0 <==> forall t :: t in bad - todo ==> HasFunction(sy, name, t)
      decreases todo
    {
      var tgt :| tgt in todo;
      ghost var before := Available(sy, name, bad - todo);
      ghost var after := Available(sy, name, bad - (todo - {tgt}));
      assert tgt in bad - (todo - {tgt});
      if HasFunction(sy, name, tgt) {
        RetargetCompose(body, before, tgt);
        assert after == before + {tgt};
        newbody := Retarget(newbody, {tgt});
      } else {
        assert after == before;
        missing := missing + 1;
      }
      todo := todo - {tgt};
    }
    assert bad - todo == bad;
  }

  /** One function of the script's main loop; `missing` counts its MISSING complaints. */
  method FixBackBranches(sy: Symbols, g: Gen) returns (out: Gen, missing: nat)
    ensures out == FixBranches(sy, g)
    ensures missing == 0 <==> forall t :: t in BadTargets(g.body) ==> HasFunction(sy, g.name, t)
  {
    var addrs := DecodedAddrs(g.body);
    if addrs == [] {
      assert FixableTargets(sy, g) == {};
      RetargetNothing(g.body);
      return g, 0;
    }
    var lo, hi := Span(addrs);
    var bad := CollectBadTargets(g.body, lo, hi + 8);
    assert bad == BadTargets(g.body);
    var newbody;
    newbody, missing := RewriteTargets(sy, g.name, g.body, bad);
    assert Available(sy, g.name, bad) == FixableTargets(sy, g);
    out := g.(body := newbody);
  }

  // ---------------------------------------------------------------- what the tables say, apart from the script

  /** The body shows a branch to t, and t lies in front of everything it decodes or 8 bytes or more behind. */
  ghost predicate Strays(body: Body, t: nat) {
    && (exists i :: 0 <= i < |body| && body[i].Insn? && body[i].br == Some(t))
    && ((forall i :: 0 <= i < |body| && body[i].Insn? ==> t < body[i].addr) ||
        (forall i :: 0 <= i < |body| && body[i].Insn? ==> body[i].addr + 8 <= t))
  }

  /** The dump has a function at t in the section of this name: the one the dump has the name in, or else the one
      the name spells. */
  ghost predicate ReachableIn(sy: Symbols, name: Name, t: nat) {
    if name in sy.name2sec then (sy.name2sec[name], t) in sy.bySecVram
    else (name.FuncIn? || (name.Static? && name.section < sy.sections)) && (name.section, t) in sy.bySecVram
  }

  lemma {:induction false} AddrsAre(body: Body, a: nat)
    ensures a in Addrs(body) <==> exists i :: 0 <= i < |body| && body[i].Insn? && body[i].addr == a
  {
    if body != [] {
      AddrsAre(body[1..], a);
      assert forall i :: 0 < i < |body| ==> body[i] == body[1..][i - 1];
      if i :| 0 <= i < |body[1..]| && body[1..][i].Insn? && body[1..][i].addr == a {
        assert body[i + 1].Insn?;
      }
    }
  }

  lemma BadTargetsStray(body: Body, t: nat)
    ensures t in BadTargets(body) <==> Strays(body, t)
  {
    var addrs := Addrs(body);
    forall a ensures a in addrs <==> exists i :: 0 <= i < |body| && body[i].Insn? && body[i].addr == a {
      AddrsAre(body, a);
    }
    hide Addrs;
    BranchTargetsShown(body, t);
    forall i | 0 <= i < |body| ensures body[i].Insn? ==> body[i].addr in addrs {
    }
    if addrs != [] {
      var lo, hi := Min(addrs), Max(addrs);
      assert lo in addrs && hi in addrs;
      forall i | 0 <= i < |body| && body[i].Insn? ensures lo <= body[i].addr <= hi {
        var j :| 0 <= j < |addrs| && addrs[j] == body[i].addr;
      }
    }
  }

  lemma BranchTargetsShown(body: Body, t: nat)
    ensures t in BranchTargets(body) <==> exists i :: 0 <= i < |body| && body[i].Insn? && body[i].br == Some(t)
  {
    if line :| line in body && line.Insn? && line.br == Some(t) {
      var i :| 0 <= i < |body| && body[i] == line;
    }
    if i :| 0 <= i < |body| && body[i].Insn? && body[i].br == Some(t) {
      assert body[i] in body;
    }
  }

  lemma HasFunctionIs(sy: Symbols, name: Name, t: nat)
    ensures HasFunction(sy, name, t) <==> ReachableIn(sy, name, t)
  {
  }

  /** A second run finds nothing left to rewrite. */
  lemma BranchRepairIsIdempotent(sy: Symbols, g: Gen)
    ensures FixBranches(sy, FixBranches(sy, g)) == FixBranches(sy, g)
  {
    var ts := FixableTargets(sy, g);
    SameInsns(g.body, ts);
    SameBadTargets(g.body, Retarget(g.body, ts));
    RetargetTwice(g.body, ts);
  }

  lemma SameBadTargets(a: Body, b: Body)
    requires Addrs(a) == Addrs(b) && BranchTargets(a) == BranchTargets(b)
    ensures BadTargets(a) == BadTargets(b)
  {
  }

  lemma RetargetTwice(body: Body, ts: set<nat>)
    ensures Retarget(Retarget(body, ts), ts) == Retarget(body, ts)
  {
    var once := Retarget(body, ts);
    var twice := Retarget(once, ts);
    forall i | 0 <= i < |body| ensures twice[i] == once[i] {
      assert RetargetLine(RetargetLine(body[i], ts), ts) == RetargetLine(body[i], ts);
    }
  }

  lemma {:induction false} SameInsns(body: Body, ts: set<nat>)
    ensures Addrs(Retarget(body, ts)) == Addrs(body)
    ensures BranchTargets(Retarget(body, ts)) == BranchTargets(body)
  {
    var r := Retarget(body, ts);
    forall t ensures t in BranchTargets(r) <==> t in BranchTargets(body) {
      if t in BranchTargets(body) {
        var line :| line in body && line.Insn? && line.br == Some(t);
        var i :| 0 <= i < |body| && body[i] == line;
        assert r[i] == line;
      }
      if t in BranchTargets(r) {
        var line :| line in r && line.Insn? && line.br == Some(t);
        var i :| 0 <= i < |r| && r[i] == line;
        assert body[i] == line;
      }
    }
    SameAddrs(body, ts);
  }

  lemma {:induction false} SameAddrs(body: Body, ts: set<nat>)
    ensures Addrs(Retarget(body, ts)) == Addrs(body)
  {
    if body != [] {
      SameAddrs(body[1..], ts);
      assert Retarget(body, ts)[1..] == Retarget(body[1..], ts);
    }
  }
}

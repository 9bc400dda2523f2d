/** The recursive mutex rc_compat.c builds on a lock that is not recursive, with its owner read outside the
    lock. Every read and write of the shared words is a step of its own; threads interleave at will. */
module RecursiveMutex {
  import opened Wrappers

  /** Where a thread is: between calls, or in front of the named access. */
  datatype Pc =
    | Outside
    | LockReadOwner
    | LockReadCount
    | LockWriteCount(seen: nat)
    | LockAcquire
    | LockCheck
    | LockWriteOwner
    | LockSetCount
    | UnlockReadOwner
    | UnlockReadCount
    | UnlockWriteCount(seen: nat)
    | UnlockClearOwner
    | UnlockRelease
    | AssertionFailed

  /** `depth` counts the lock calls that have returned less the unlock calls that have. */
  datatype Thread = Thread(pc: Pc, depth: nat)

  /** The SRW lock with the thread that holds it, and the two words beside it. */
  datatype State = State(held: Option<nat>, owner: nat, count: nat, threads: seq<Thread>)

  /** Thread ids are never 0. */
  function Id(i: nat): nat {
    i + 1
  }

  ghost predicate Init(s: State) {
    && s.held == None && s.owner == 0 && s.count == 0
    && forall i :: 0 <= i < |s.threads| ==> s.threads[i] == Thread(Outside, 0)
  }

  function At(s: State, i: nat, pc: Pc): State
    requires i < |s.threads|
  {
    s.(threads := s.threads[i := s.threads[i].(pc := pc)])
  }

  function Return(s: State, i: nat, depth: nat): State
    requires i < |s.threads|
  {
    s.(threads := s.threads[i := Thread(Outside, depth)])
  }

  /** One step of thread i. A thread between calls may lock or unlock; one that waits for the lock has no step. */
  ghost predicate Step(s: State, i: nat, s': State) {
    && i < |s.threads|
    && var t := s.threads[i];
       match t.pc
       case Outside => s' == At(s, i, LockReadOwner) || s' == At(s, i, UnlockReadOwner)
       case LockReadOwner => s' == At(s, i, if s.owner == Id(i) then LockReadCount else LockAcquire)
       case LockReadCount => s' == At(s, i, LockWriteCount(s.count))
       case LockWriteCount(seen) => s' == Return(s.(count := seen + 1), i, t.depth + 1)
       case LockAcquire => s.held == None && s' == At(s.(held := Some(i)), i, LockCheck)
       case LockCheck => s' == At(s, i, if s.owner == 0 && s.count == 0 then LockWriteOwner else AssertionFailed)
       case LockWriteOwner => s' == At(s.(owner := Id(i)), i, LockSetCount)
       case LockSetCount => s' == Return(s.(count := 1), i, t.depth + 1)
       case UnlockReadOwner => s' == At(s, i, if s.owner == Id(i) then UnlockReadCount else AssertionFailed)
       case UnlockReadCount => s' == At(s, i, if s.count > 0 then UnlockWriteCount(s.count) else AssertionFailed)
       case UnlockWriteCount(seen) =>
         if seen == 1 then s' == At(s.(count := 0), i, UnlockClearOwner)
         else seen > 0 && t.depth > 0 && s' == Return(s.(count := seen - 1), i, t.depth - 1)
       case UnlockClearOwner => s' == At(s.(owner := 0), i, UnlockRelease)
       case UnlockRelease => t.depth > 0 && s' == Return(s.(held := None), i, t.depth - 1)
       case AssertionFailed => false
  }

  /** The thread holds the lock underneath. */
  predicate Holds(t: Thread) {
    match t.pc
    case LockReadCount | LockWriteCount(_) | LockCheck | LockWriteOwner | LockSetCount => true
    case UnlockReadCount | UnlockWriteCount(_) | UnlockClearOwner | UnlockRelease => true
    case LockAcquire | AssertionFailed => false
    case _ => t.depth > 0
  }

  /** What a thread's position says about its depth and, if it holds the lock, about the two words. */
  predicate Consistent(t: Thread, id: nat, owner: nat, count: nat) {
    match t.pc
    case Outside => t.depth > 0 ==> owner == id && count == t.depth
    case LockReadOwner => t.depth > 0 ==> owner == id && count == t.depth
    case LockReadCount => t.depth > 0 && owner == id && count == t.depth
    case LockWriteCount(seen) => t.depth > 0 && owner == id && count == t.depth == seen
    case LockAcquire => t.depth == 0
    case LockCheck => t.depth == 0 && owner == 0 && count == 0
    case LockWriteOwner => t.depth == 0 && owner == 0 && count == 0
    case LockSetCount => t.depth == 0 && owner == id && count == 0
    case UnlockReadOwner => t.depth > 0 ==> owner == id && count == t.depth
    case UnlockReadCount => t.depth > 0 && owner == id && count == t.depth
    case UnlockWriteCount(seen) => t.depth > 0 && owner == id && count == t.depth == seen
    case UnlockClearOwner => t.depth == 1 && owner == id && count == 0
    case UnlockRelease => t.depth == 1 && owner == 0 && count == 0
    case AssertionFailed => t.depth == 0
  }

  ghost predicate Inv(s: State) {
    && (s.held == None ==> s.owner == 0 && s.count == 0)
    && (s.held.Some? ==> s.held.value < |s.threads| && (s.owner == 0 || s.owner == Id(s.held.value)))
    && forall i :: 0 <= i < |s.threads| ==>
         (Holds(s.threads[i]) <==> s.held == Some(i)) && Consistent(s.threads[i], Id(i), s.owner, s.count)
  }

  lemma InitInv(s: State)
    requires Init(s)
    ensures Inv(s)
  {
  }

  /** Every step of every thread keeps the invariant. */
  lemma StepKeepsInv(s: State, i: nat, s': State)
    requires Inv(s) && Step(s, i, s')
    ensures Inv(s')
  {
    assert Consistent(s.threads[i], Id(i), s.owner, s.count);
    forall k | 0 <= k < |s'.threads|
      ensures (Holds(s'.threads[k]) <==> s'.held == Some(k)) && Consistent(s'.threads[k], Id(k), s'.owner, s'.count)
    {
      if k != i {
        assert s'.threads[k] == s.threads[k];
      }
    }
  }

  ghost predicate Run(states: seq<State>, movers: seq<nat>) {
    && |states| == |movers| + 1 && Init(states[0])
    && forall n :: 0 <= n < |movers| ==> Step(states[n], movers[n], states[n + 1])
  }

  lemma {:induction false} RunKeepsInv(states: seq<State>, movers: seq<nat>, n: nat)
    requires Run(states, movers) && n < |states|
    ensures Inv(states[n])
  {
    if n == 0 {
      InitInv(states[0]);
    } else {
      RunKeepsInv(states, movers, n - 1);
      StepKeepsInv(states[n - 1], movers[n - 1], states[n]);
    }
  }

  /** In every run: at most one thread is inside, with the count its depth once its call has returned, and a
      thread that sees its own id as the owner holds the lock; only a thread inside ever does. */
  lemma RunIsExclusive(states: seq<State>, movers: seq<nat>, n: nat, i: nat, k: nat)
    requires Run(states, movers) && n < |states| && i < |states[n].threads| && k < |states[n].threads|
    ensures var s := states[n];
            && (s.threads[i].depth > 0 && s.threads[k].depth > 0 ==> i == k)
            && (s.threads[i].pc == Outside && s.threads[i].depth > 0 ==> s.count == s.threads[i].depth)
            && (s.threads[i].pc == LockReadOwner ==> (s.owner == Id(i) <==> s.held == Some(i)))
            && (s.threads[i].pc == LockAcquire ==> s.held != Some(i))
  {
    RunKeepsInv(states, movers, n);
    var s := states[n];
    assert Consistent(s.threads[i], Id(i), s.owner, s.count) && Consistent(s.threads[k], Id(k), s.owner, s.count);
    assert Holds(s.threads[i]) <==> s.held == Some(i);
    assert Holds(s.threads[k]) <==> s.held == Some(k);
  }

  /** An assertion fails exactly when a thread unlocks what it does not hold. */
  lemma AssertionFailsIff(states: seq<State>, movers: seq<nat>, n: nat)
    requires Run(states, movers) && n < |movers|
    ensures movers[n] < |states[n].threads| == |states[n + 1].threads|
    ensures var t := states[n].threads[movers[n]];
            states[n + 1].threads[movers[n]].pc == AssertionFailed <==> t.pc == UnlockReadOwner && t.depth == 0
  {
    RunKeepsInv(states, movers, n);
    var s, i := states[n], movers[n];
    assert Step(s, i, states[n + 1]);
    assert Consistent(s.threads[i], Id(i), s.owner, s.count);
    assert Holds(s.threads[i]) <==> s.held == Some(i);
  }

  /** A thread that is not waiting for the lock, and has not failed, can always go on; one that waits can as
      soon as nobody holds it. */
  lemma NobodyIsStuck(states: seq<State>, movers: seq<nat>, n: nat, i: nat) returns (s': State)
    requires Run(states, movers) && n < |states| && i < |states[n].threads|
    requires states[n].threads[i].pc != AssertionFailed
    requires states[n].threads[i].pc == LockAcquire ==> states[n].held == None
    ensures Step(states[n], i, s')
  {
    RunKeepsInv(states, movers, n);
    var s := states[n];
    var t := s.threads[i];
    assert Consistent(t, Id(i), s.owner, s.count);
    match t.pc
    case Outside => s' := At(s, i, LockReadOwner);
    case LockReadOwner => s' := At(s, i, if s.owner == Id(i) then LockReadCount else LockAcquire);
    case LockReadCount => s' := At(s, i, LockWriteCount(s.count));
    case LockWriteCount(seen) => s' := Return(s.(count := seen + 1), i, t.depth + 1);
    case LockAcquire => s' := At(s.(held := Some(i)), i, LockCheck);
    case LockCheck => s' := At(s, i, LockWriteOwner);
    case LockWriteOwner => s' := At(s.(owner := Id(i)), i, LockSetCount);
    case LockSetCount => s' := Return(s.(count := 1), i, t.depth + 1);
    case UnlockReadOwner => s' := At(s, i, if s.owner == Id(i) then UnlockReadCount else AssertionFailed);
    case UnlockReadCount => s' := At(s, i, UnlockWriteCount(s.count));
    case UnlockWriteCount(seen) =>
      s' := if seen == 1 then At(s.(count := 0), i, UnlockClearOwner)
        else Return(s.(count := seen - 1), i, t.depth - 1);
    case UnlockClearOwner => s' := At(s.(owner := 0), i, UnlockRelease);
    case UnlockRelease => s' := Return(s.(held := None), i, t.depth - 1);
  }
}

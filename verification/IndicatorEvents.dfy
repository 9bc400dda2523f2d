/** The events rc_client.c raises for something on screen: the progress indicator and each leaderboard tracker. */
module IndicatorEvents {
  datatype Event = Show | Update | Hide

  predicate Visible(log: seq<Event>) {
    log != [] && log[|log| - 1] != Hide
  }

  /** A SHOW is raised exactly when the indicator is not visible, anything else exactly when it is. */
  predicate Alternates(log: seq<Event>) {
    log == [] ||
    (var front := log[..|log| - 1]; Alternates(front) && (log[|log| - 1] == Show <==> !Visible(front)))
  }

  lemma AlternatesOn(log: seq<Event>, e: Event)
    requires Alternates(log) && (e == Show <==> !Visible(log))
    ensures Alternates(log + [e])
  {
    assert (log + [e])[..|log|] == log;
  }

  /** One SHOW, some UPDATEs, one HIDE. */
  function Cycle(updates: nat): seq<Event> {
    [Show] + Updates(updates) + [Hide]
  }

  function Cycles(us: seq<nat>): seq<Event> {
    if us == [] then [] else Cycles(us[..|us| - 1]) + Cycle(us[|us| - 1])
  }

  function Updates(n: nat): seq<Event> {
    if n == 0 then [] else Updates(n - 1) + [Update]
  }

  /** Such a log is (SHOW UPDATE* HIDE)*, with one more SHOW UPDATE* at the end while the indicator is visible. */
  lemma {:induction false} AlternatingLogIsCycles(log: seq<Event>) returns (us: seq<nat>, n: nat)
    requires Alternates(log)
    ensures log == if Visible(log) then Cycles(us) + ([Show] + Updates(n)) else Cycles(us)
  {
    if log == [] {
      us, n := [], 0;
    } else {
      var front, last := log[..|log| - 1], log[|log| - 1];
      us, n := AlternatingLogIsCycles(front);
      assert log == front + [last];
      match last
      case Show =>
        n := 0;
        assert Updates(0) == [] && [Show] + [] == [Show];
      case Update =>
        CycleGrows(Cycles(us), n);
        n := n + 1;
      case Hide =>
        CycleCloses(us, n);
        us := us + [n];
    }
  }

  lemma CycleGrows(c: seq<Event>, n: nat)
    ensures c + ([Show] + Updates(n)) + [Update] == c + ([Show] + Updates(n + 1))
  {
  }

  lemma CycleCloses(us: seq<nat>, n: nat)
    ensures Cycles(us) + ([Show] + Updates(n)) + [Hide] == Cycles(us + [n])
  {
    assert (us + [n])[..|us|] == us;
  }
}

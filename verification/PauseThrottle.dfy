/** How rc_client.c keeps a player from pausing too often in hardcore: how many frames must run between two
    pauses, how that grows with every pause and decays with every frame. */
module PauseThrottle {

  const MINIMUM: nat := 20              // RC_MINIMUM_UNPAUSED_FRAMES
  const MULTIPLIER: nat := 4            // RC_PAUSE_DECAY_MULTIPLIER
  const LONGEST: nat := 5 * 60

  /** required_unpaused_frames and unpaused_frame_decay. */
  datatype State = State(required: nat, decay: nat)

  /** What every run keeps. A penalty never stands without a decay that will lift it. */
  predicate Inv(s: State) {
    MINIMUM <= s.required <= LONGEST + MINIMUM - 1 && s.decay <= s.required * MULTIPLIER &&
      (s.required > MINIMUM ==> s.decay > 0)
  }

  function Frame(s: State): State {
    if s.decay == 0 then s
    else if s.decay == 1 && s.required > MINIMUM then
      var half := s.required / 2;
      var required := if half <= MINIMUM then MINIMUM else half;
      State(required, required * (MULTIPLIER - 1) - 1)
    else s.(decay := s.decay - 1)
  }

  predicate Full(s: State) {
    s.decay == s.required * MULTIPLIER
  }

  predicate Granted(s: State) {
    Full(s) || s.decay <= s.required * (MULTIPLIER - 1)
  }

  function Paused(s: State): State {
    if Full(s) || !Granted(s) then s
    else
      var required := if s.decay > 0 && s.required < LONGEST then s.required + MINIMUM else s.required;
      State(required, required * MULTIPLIER)
  }

  function Frames(s: State, n: nat): State {
    if n == 0 then s else Frame(Frames(s, n - 1))
  }

  class Throttle {
    var required: nat
    var decay: nat

    function Now(): State
      reads this
    {
      State(required, decay)
    }

    constructor ()
      ensures Inv(Now()) && Now() == State(MINIMUM, 0)
    {
      required, decay := MINIMUM, 0;
    }

    /** The end of rc_client_do_frame. */
    method DoFrame()
      requires Inv(Now())
      modifies this
      ensures Inv(Now()) && Now() == Frame(old(Now()))
    {
      if decay > 0 {
        decay := decay - 1;
        if decay == 0 && required > MINIMUM {
          required := required / 2;
          if required <= MINIMUM {
            required := MINIMUM;
          }
          decay := required * (MULTIPLIER - 1) - 1;
        }
      }
    }

    /** rc_client_can_pause. In hardcore a pause is granted, or refused with the exact number of frames to wait. */
    method CanPause(hardcore: bool) returns (granted: bool, remaining: nat)
      requires Inv(Now())
      modifies this
      ensures Inv(Now()) && Now() == if hardcore then Paused(old(Now())) else old(Now())
      ensures granted == (!hardcore || Granted(old(Now())))
      ensures granted ==> remaining == 0
      ensures !granted ==> remaining > 0 && Granted(Frames(Now(), remaining)) &&
                           forall n :: 0 <= n < remaining ==> !Granted(Frames(Now(), n))
    {
      remaining := 0;
      if !hardcore {
        return true, 0;
      }
      if decay == required * MULTIPLIER {
        return true, 0;
      }
      if decay > required * (MULTIPLIER - 1) {
        remaining := decay - required * (MULTIPLIER - 1);
        WaitIsExact(Now());
        return false, remaining;
      }
      if decay > 0 {
        if required < LONGEST {
          required := required + MINIMUM;
        }
      }
      decay := required * MULTIPLIER;
      return true, 0;
    }
  }

  /** While the decay has not run down to nothing, n frames take n off it. */
  lemma {:induction false} FramesDecay(s: State, n: nat)
    requires Inv(s) && (n < s.decay || (n <= s.decay && s.required == MINIMUM))
    ensures Frames(s, n) == s.(decay := s.decay - n)
  {
    if n > 0 {
      FramesDecay(s, n - 1);
    }
  }

  /** After a refusal a pause is granted that many frames later and not before. */
  lemma WaitIsExact(s: State)
    requires Inv(s) && !Granted(s)
    ensures var wait := s.decay - s.required * (MULTIPLIER - 1);
            wait > 0 && Granted(Frames(s, wait)) && forall n :: 0 <= n < wait ==> !Granted(Frames(s, n))
  {
    var wait := s.decay - s.required * (MULTIPLIER - 1);
    FramesDecay(s, wait);
    forall n | 0 <= n < wait ensures !Granted(Frames(s, n)) {
      FramesDecay(s, n);
    }
  }

  /** Calls and frames after a grant. A refused call changes nothing, nor does one before the first frame. */
  datatype Event = AFrame | ACall

  function Run(s: State, events: seq<Event>): State {
    if events == [] then s
    else
      var before := Run(s, events[..|events| - 1]);
      if events[|events| - 1] == AFrame then Frame(before) else Paused(before)
  }

  function CountFrames(events: seq<Event>): nat {
    if events == [] then 0 else CountFrames(events[..|events| - 1]) + if events[|events| - 1] == AFrame then 1 else 0
  }

  /** Two grants with a frame between them are at least `required` frames apart, and that is at least 20: whatever
      was called since the first grant, before that many frames the state is that of the frames alone, and
      every call but those before the first frame is refused. */
  lemma {:induction false} GrantsApart(s: State, events: seq<Event>)
    requires Inv(s) && Full(s) && CountFrames(events) < s.required
    ensures Run(s, events) == s.(decay := s.decay - CountFrames(events))
    ensures Granted(Run(s, events)) <==> CountFrames(events) == 0
    ensures s.required >= MINIMUM
  {
    if events != [] {
      GrantsApart(s, events[..|events| - 1]);
    }
  }

  /** Pausing again and again, each time after so many frames. */
  function Pauses(s: State, waits: seq<nat>): State {
    if waits == [] then s else Paused(Frames(Pauses(s, waits[..|waits| - 1]), waits[|waits| - 1]))
  }

  /** The frames required after k early pauses in a row: 20 more each time, up to 300. */
  function Penalty(k: nat): (r: nat)
    ensures 20 <= r <= 300
  {
    if k < 14 then 20 * (k + 1) else 300
  }

  /** Each pause comes as soon as one is granted or later, but before the decay of the one before has run out. */
  ghost predicate AllEarly(waits: seq<nat>) {
    forall i :: 0 <= i < |waits| ==> Penalty(i) <= waits[i] < 4 * Penalty(i)
  }

  /** A first pause requires 20 frames, and every early one after it 20 more, but never more than 300. */
  lemma {:induction false} EarlyPausesCost(waits: seq<nat>)
    requires AllEarly(waits)
    ensures Paused(State(20, 0)) == State(20, 80)
    ensures Pauses(State(20, 80), waits) == State(Penalty(|waits|), 4 * Penalty(|waits|))
  {
    if waits != [] {
      var k := |waits| - 1;
      EarlyPausesCost(waits[..k]);
      FramesDecay(State(Penalty(k), 4 * Penalty(k)), waits[k]);
    }
  }

  /** A pause after the decay has run out once finds the penalty halved, and costs 20 more than that. */
  lemma LatePauseCosts(s: State, n: nat)
    requires Inv(s) && Full(s) && s.required > 20
    requires var half := if s.required / 2 <= 20 then 20 else s.required / 2; 0 <= n - 4 * s.required < 3 * half - 1
    ensures var half := if s.required / 2 <= 20 then 20 else s.required / 2;
            Paused(Frames(s, n)) == State(half + 20, 4 * (half + 20))
  {
    hide Frames;
    var half := if s.required / 2 <= 20 then 20 else s.required / 2;
    Halves(s, half);
    FramesDecay(State(half, 3 * half - 1), n - s.decay);
    FramesJoin(s, s.decay, n - s.decay);
  }

  /** When the decay has run out, a penalty is halved. */
  lemma Halves(s: State, half: nat)
    requires Inv(s) && s.required > 20 && half == if s.required / 2 <= 20 then 20 else s.required / 2
    ensures Frames(s, s.decay) == State(half, 3 * half - 1) && Inv(State(half, 3 * half - 1))
  {
    FramesDecay(s, s.decay - 1);
    assert Frames(s, s.decay) == Frame(Frames(s, s.decay - 1));
  }

  /** Frames until no penalty and no decay are left. */
  function Rest(required: nat, decay: nat): nat
    decreases required
  {
    if required <= MINIMUM then decay
    else
      var half := if required / 2 <= MINIMUM then MINIMUM else required / 2;
      decay + Rest(half, half * (MULTIPLIER - 1) - 1)
  }

  lemma {:induction false} RestIsShort(required: nat, decay: nat)
    requires required >= MINIMUM
    ensures Rest(required, decay) <= decay + 3 * required + 59
    decreases required
  {
    if required > MINIMUM {
      var half := if required / 2 <= MINIMUM then MINIMUM else required / 2;
      RestIsShort(half, half * (MULTIPLIER - 1) - 1);
    }
  }

  lemma {:induction false} FramesJoin(s: State, n: nat, m: nat)
    ensures Frames(Frames(s, n), m) == Frames(s, n + m)
  {
    if m > 0 {
      FramesJoin(s, n, m - 1);
    }
  }

  lemma {:induction false} RestLifts(s: State)
    requires Inv(s)
    ensures Frames(s, Rest(s.required, s.decay)) == State(MINIMUM, 0)
    decreases s.required
  {
    if s.required <= MINIMUM {
      FramesDecay(s, s.decay);
    } else {
      var half := if s.required / 2 <= MINIMUM then MINIMUM else s.required / 2;
      var next := State(half, half * (MULTIPLIER - 1) - 1);
      Halves(s, half);
      RestLifts(next);
      FramesJoin(s, s.decay, Rest(half, next.decay));
    }
  }

  /** Without pauses the penalty is gone within 7 * required + 60 frames, and stays gone. */
  lemma PenaltyIsLifted(s: State, n: nat)
    requires Inv(s) && n >= 7 * s.required + 60
    ensures Frames(s, n) == State(MINIMUM, 0)
  {
    var rest := Rest(s.required, s.decay);
    RestIsShort(s.required, s.decay);
    RestLifts(s);
    StaysLifted(n - rest);
    FramesJoin(s, rest, n - rest);
  }

  lemma {:induction false} StaysLifted(n: nat)
    ensures Frames(State(MINIMUM, 0), n) == State(MINIMUM, 0)
  {
    if n > 0 {
      StaysLifted(n - 1);
    }
  }
}

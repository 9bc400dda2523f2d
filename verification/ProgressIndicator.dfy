/** The progress indicator of rc_client.c and the timer that hides it: frames, idling, reset,
    deserialization and unloading, over the shared queue of scheduled callbacks. */
module ProgressIndicator {
  import opened IndicatorEvents
  import opened TimerQueue

  // ---------------------------------------------------------------- retry backoff

  /** Seconds to wait after the failure that makes the count `retries` (post-increment). */
  function RetryDelay(retries: nat): nat
    requires retries >= 2
  {
    if retries > 8 then 120 else Pow2(retries - 2)
  }

  function Pow2(k: nat): nat {
    if k == 0 then 1 else 2 * Pow2(k - 1)
  }

  /** 1, 2, 4, .. 64, then 120 for good; the shift distance stays within 0..6. */
  lemma BackoffSchedule(retries: nat)
    requires retries >= 2
    ensures 1 <= RetryDelay(retries) <= 120
    ensures retries <= 8 ==> 0 <= retries - 2 <= 6
    ensures retries < 8 ==> RetryDelay(retries + 1) == 2 * RetryDelay(retries)
    ensures RetryDelay(2) == 1 && RetryDelay(8) == 64 && (retries > 8 ==> RetryDelay(retries) == 120)
  {
    assert Pow2(6) == 2 * Pow2(5) == 4 * Pow2(4) == 8 * Pow2(3) == 16 * Pow2(2) == 32 * Pow2(1) == 64;
    if retries <= 8 {
      PowBounded(retries - 2);
    }
  }

  lemma {:induction false} PowBounded(k: nat)
    requires k <= 6
    ensures 1 <= Pow2(k) <= 64
    decreases 6 - k
  {
    if k < 6 {
      PowBounded(k + 1);
    } else {
      assert Pow2(6) == 2 * Pow2(5) == 4 * Pow2(4) == 8 * Pow2(3) == 16 * Pow2(2) == 32 * Pow2(1) == 64;
    }
    PowPositive(k);
  }

  lemma {:induction false} PowPositive(k: nat)
    ensures Pow2(k) >= 1
  {
    if k > 0 {
      PowPositive(k - 1);
    }
  }

  /** The stored count is 32 bits wide: a failure leaves the schedule exactly when it wraps the count to 0. */
  lemma BackoffLeavesScheduleIff(stored: nat)
    requires 1 <= stored < 0x1_0000_0000
    ensures var count := (stored + 1) % 0x1_0000_0000;
            (count > 8 || 0 <= count - 2 <= 6) <==> stored != 0xFFFF_FFFF
  {
  }

  // ---------------------------------------------------------------- the client

  datatype Action = None | ToShow | ToUpdate | ToHide

  /** What the outside answers a callback: whether a request that is sent again fails once more, and of a load that is
      finished whether no other has begun since, whether its hash is identified and whether spectator mode is locked. */
  datatype Reply = Reply(fails: bool, current: bool, identified: bool, locked: bool)

  /** The game after the first n of q have fired: the first load that is still current, if none is loaded. */
  function GameAfter(game: nat, q: seq<Timer>, n: nat, reply: Timer -> Reply): nat
    requires n <= |q|
  {
    if n == 0 then game
    else
      var g := GameAfter(game, q, n - 1, reply);
      if g == 0 && q[n - 1].kind.Activate? && reply(q[n - 1]).current then q[n - 1].kind.game else g
  }

  class Client {
    const queue: Queue
    var hideTimer: Timer?       // game->progress_tracker.hide_callback
    var action: Action          // game->progress_tracker.action
    var pending: bool           // the progress-tracker bit of game->pending_events
    var game: nat               // 0 while no game is loaded
    var clock: nat
    ghost var log: seq<Event>
    ghost var fired: seq<Timer> // the entries whose callbacks have run

    /** A hide timer is the loaded game's own, a ping belongs to the loaded game, a retry has failed twice. */
    ghost predicate Owned(n: Timer)
      reads this, n
    {
      match n.kind
      case HideProgress => n == hideTimer
      case Ping(id) => id == game != 0
      case Retry => n.retries >= 2
      case Activate(_) => true
    }

    ghost predicate AllOwned()
      reads this, queue, queue.elems
    {
      forall n :: n in queue.elems ==> Owned(n)
    }

    /** The hide timer is queued exactly while its time is not zero. */
    ghost predicate Timely()
      reads this, queue, hideTimer
    {
      && (hideTimer != null ==>
            hideTimer.kind.HideProgress? && (hideTimer.when != 0 <==> hideTimer in queue.elems) &&
              hideTimer.when <= clock + 2000)
      && (game == 0 ==> hideTimer == null)
    }

    ghost predicate Armed()
      reads this, queue
    {
      hideTimer != null && hideTimer in queue.elems
    }

    /** What relates the hide timer, the queue and the events raised so far. */
    ghost predicate Timers()
      reads this, queue, queue.nodes, queue.elems, hideTimer
    {
      queue.Valid() && AllOwned() && Timely() && Alternates(log)
    }

    /** Between calls: the timer is queued exactly while its time is not zero, exactly while the indicator is
        visible. */
    ghost predicate Inv()
      reads this, queue, queue.nodes, queue.elems, hideTimer
    {
      Timers() && action == None && !pending && (Visible(log) <==> Armed())
    }

    /** Between deciding on an event and raising it. */
    ghost predicate Decided()
      reads this, queue, queue.nodes, queue.elems, hideTimer
    {
      && Timers() && hideTimer != null && pending
      && (Armed() <==> action == ToShow || action == ToUpdate)
      && action != None
      && (Visible(log) <==> action != ToShow)
    }

    constructor ()
      ensures Inv() && game == 0 && log == []
      ensures fresh(queue)
    {
      queue := new Queue();
      hideTimer, action, pending, game, clock, log, fired := null, None, false, 0, 0, [], [];
    }

    /** get_time_millisecs: a monotone clock. */
    method Now() returns (now: nat)
      modifies this`clock
      ensures now == clock >= old(clock)
    {
      var passed :| passed >= 0;
      clock := clock + passed;
      now := clock;
    }

    /** rc_client_hide_progress_tracker. */
    method HideTracker()
      requires Inv()
      modifies this`action, this`pending, queue, queue.nodes`next, NonNull(hideTimer)
      ensures if old(Armed()) then Decided() && action == ToHide else Inv()
      ensures queue.elems <= old(queue.elems) && !Armed()
      ensures queue.nodes == Less(old(queue.nodes), hideTimer)
      ensures queue.elems == Elems(queue.nodes) && old(queue.elems == Elems(queue.nodes))
    {
      hide Alternates, Timed, Sorted, Chain, Elems;
      ElemsAreOf(queue.nodes);
      if hideTimer != null && hideTimer.when != 0 && action == None {
        ghost var safe := MoveTimer(0);
        action := ToHide;
        pending := true;
      }
    }

    /** rc_client_do_frame_update_progress_tracker. */
    method UpdateTracker()
      requires Inv() && game != 0
      modifies this`hideTimer, this`action, this`pending, this`clock, queue, queue.nodes`next, NonNull(hideTimer)
      ensures hideTimer != null && hideTimer.when == clock + 2000
      ensures Decided() && action == (if old(Armed()) then ToUpdate else ToShow)
      ensures clock >= old(clock)
      ensures hideTimer == old(hideTimer) || (old(hideTimer) == null && fresh(hideTimer))
      ensures queue.elems == old(queue.elems) + {hideTimer}
      ensures queue.nodes == Moved(old(queue.nodes), old(queue.ws), hideTimer, hideTimer.when)
    {
      if hideTimer == null {
        hideTimer := new Timer(HideProgress, 0);
      }
      action := if hideTimer.when == 0 then ToShow else ToUpdate;
      pending := true;
      var now := Now();
      ghost var safe := MoveTimer(now + 2 * 1000);
    }

    /** The calls of rc_client_reschedule_callback: under a monotone clock the timer is only unscheduled
        while queued and never moved in front of an earlier entry. */
    method MoveTimer(when: nat) returns (ghost safe: bool)
      requires Timers() && hideTimer != null
      requires if when == 0 then Armed() else when == clock + 2000 && game != 0
      modifies queue, queue.nodes`next, hideTimer`when, hideTimer`next
      ensures safe && Timers() && hideTimer.when == when
      ensures queue.nodes == Moved(old(queue.nodes), old(queue.ws), hideTimer, when)
      ensures queue.elems == if when == 0 then old(queue.elems) - {hideTimer} else old(queue.elems) + {hideTimer}
    {
      hide Moved, Alternates, Visible, Timed, Sorted, Chain;
      ElemsAre(queue.nodes, hideTimer);
      safe := MoveBehind(hideTimer, when);
    }

    method MoveBehind(t: Timer, when: nat) returns (ghost safe: bool)
      requires queue.Valid() && (if when == 0 then t in queue.nodes else t in queue.nodes ==> t.when <= when)
      modifies queue, queue.nodes`next, t`when, t`next
      ensures safe && queue.Valid() && t.when == when
      ensures queue.nodes == Moved(old(queue.nodes), old(queue.ws), t, when)
      ensures queue.elems == if when == 0 then old(queue.elems) - {t} else old(queue.elems) + {t}
    {
      StaysBehind(queue.nodes, queue.ws, t, when);
      safe := queue.Reschedule(t, when);
    }

    /** rc_client_schedule_callback for an entry that has just been given its time. */
    method Enqueue(t: Timer, when: nat)
      requires queue.Valid() && t !in queue.elems
      modifies queue, queue.nodes`next, t`when, t`next
      ensures queue.Valid() && t.when == when
      ensures Queued(t, old(queue.nodes), old(queue.ws)) && queue.elems == old(queue.elems) + {t}
    {
      ElemsAre(queue.nodes, t);
      t.when := when;
      queue.Schedule(t);
    }

    /** rc_client_raise_progress_tracker_events, as guarded in rc_client_raise_pending_events. */
    method RaiseEvents()
      requires Decided() || Inv()
      modifies this`action, this`pending, this`log
      ensures Inv()
      ensures old(pending) ==>
                log == old(log) + [match old(action) case ToShow => Show case ToHide => Hide case _ => Update]
      ensures !old(pending) ==> log == old(log)
    {
      if pending {
        var e := match action case ToShow => Show case ToHide => Hide case _ => Update;
        AlternatesOn(log, e);
        action := None;
        log := log + [e];
      }
      pending := false;
    }

    /** The progress part of rc_client_do_frame; `measured` tells whether some achievement's progress is to be shown. */
    method Frame(measured: bool)
      requires Inv()
      modifies this, queue, queue.nodes`next, NonNull(hideTimer)
      ensures Inv() && game == old(game)
      ensures log == old(log) + (if measured && game != 0 then [if Visible(old(log)) then Update else Show] else [])
      ensures measured && game != 0 ==> Visible(log) && hideTimer != null && hideTimer.when == clock + 2000
      ensures measured && game != 0 ==>
                queue.nodes == Moved(old(queue.nodes), old(queue.ws), hideTimer, hideTimer.when)
      ensures !measured || game == 0 ==> queue.nodes == old(queue.nodes)
    {
      pending := false;
      if game != 0 && measured {
        UpdateTracker();
      }
      RaiseEvents();
    }

    /** rc_client_reset and rc_client_deserialize_progress_sized, for a game that stays loaded. */
    method ResetOrDeserialize()
      requires Inv()
      modifies this`action, this`pending, this`log, queue, queue.nodes`next, NonNull(hideTimer)
      ensures Inv() && !Visible(log)
      ensures log == old(log) + (if Visible(old(log)) then [Hide] else [])
      ensures queue.nodes == Less(old(queue.nodes), hideTimer)
    {
      pending := false;
      HideTracker();
      RaiseEvents();
    }

    /** rc_client_unload_game: hide the indicator, drop the game's pings, free the game and its timer. */
    method Unload()
      requires Inv()
      modifies this, queue, queue.nodes`next, NonNull(hideTimer)
      ensures Inv() && game == 0 && !Visible(log)
      ensures log == old(log) + (if Visible(old(log)) then [Hide] else [])
      ensures fired == old(fired)
      ensures forall n :: n in queue.elems <==> n in old(queue.elems) && (n.kind.Retry? || n.kind.Activate?)
      ensures queue.nodes == if old(game) == 0 then old(queue.nodes)
                             else WithoutPings(Less(old(queue.nodes), old(hideTimer)), old(game))
    {
      hide Queue.Valid, Alternates, Visible, WithoutPings, Elems, Client.AllOwned, Client.Timely;
      if game != 0 {
        RestStays(queue.nodes, hideTimer, game);
        EndGame();
      } else {
        NoGameNoPings();
      }
    }

    method EndGame()
      requires Inv() && game != 0
      modifies this, queue, queue.nodes`next, NonNull(hideTimer)
      ensures Inv() && game == 0 && !Visible(log)
      ensures log == old(log) + (if Visible(old(log)) then [Hide] else [])
      ensures fired == old(fired) && queue.elems == Elems(queue.nodes) && queue.elems <= old(queue.elems)
      ensures forall n :: n in queue.elems ==> n.kind.Retry? || n.kind.Activate?
      ensures queue.nodes == WithoutPings(Less(old(queue.nodes), old(hideTimer)), old(game))
    {
      hide Alternates, WithoutPings, Elems, Sorted, Timed, Chain;
      HideAndDrop();
      RaiseEvents();
      NoPingsLeft();
      hideTimer := null;
      game := 0;
    }

    method HideAndDrop()
      requires Inv()
      modifies this`action, this`pending, queue, queue.nodes`next, NonNull(hideTimer)
      ensures if old(Armed()) then Decided() && action == ToHide else Inv()
      ensures queue.elems <= old(queue.elems) && !Armed() && NoPings(queue.nodes, |queue.nodes|, game)
      ensures queue.nodes == WithoutPings(Less(old(queue.nodes), hideTimer), game)
    {
      hide NoPings, Alternates, WithoutPings, Elems, Sorted, Timed, Queue.Valid;
      HideTracker();
      StillAmong(queue.nodes, old(queue.nodes));
      queue.DropPings(game);
    }

    /** Retries and activations are neither hide timers nor pings. */
    lemma RestStays(q: seq<Timer>, t: Timer?, id: nat)
      requires Inv() && t == hideTimer && q == queue.nodes
      ensures forall n :: n in queue.elems && (n.kind.Retry? || n.kind.Activate?) ==>
                n in Elems(WithoutPings(Less(q, t), id))
    {
      var rest := WithoutPings(Less(q, t), id);
      WithoutPingsKeeps(Less(q, t), id);
      forall n | n in queue.elems && (n.kind.Retry? || n.kind.Activate?) ensures n in Elems(rest) {
        ElemsAre(q, n);
        ElemsAre(rest, n);
        if t != null && t in q {
          var k := IndexOf(q, t);
          var i :| 0 <= i < |q| && q[i] == n;
          assert Without(q, t)[if i < k then i else i - 1] == n;
        }
      }
    }

    lemma NoGameNoPings()
      requires Inv() && game == 0
      ensures !Visible(log) && forall n :: n in queue.elems ==> n.kind.Retry? || n.kind.Activate?
    {
      forall n | n in queue.elems ensures n.kind.Retry? || n.kind.Activate? {
        assert Owned(n);
      }
    }

    lemma NoPingsLeft()
      requires queue.Valid() && AllOwned() && !Armed() && NoPings(queue.nodes, |queue.nodes|, game)
      ensures forall n :: n in queue.elems ==> n.kind.Retry? || n.kind.Activate?
    {
      forall n | n in queue.elems ensures n.kind.Retry? || n.kind.Activate? {
        ElemsAre(queue.nodes, n);
        assert Owned(n);
      }
    }

    /** The end of a successful load: the first ping is due in 30 seconds, unless the hash is not identified or
        spectator mode is locked. */
    method Load(id: nat, identified: bool, locked: bool) returns (ping: Timer?)
      requires Inv() && game == 0 && id != 0
      modifies this`clock, this`game, queue, queue.nodes`next
      ensures Inv() && game == id && clock >= old(clock)
      ensures ping != null <==> identified && !locked
      ensures Started(ping, old(queue.nodes), old(queue.ws)) && queue.elems == old(queue.elems) + NonNull(ping)
      ensures ping == null || fresh(ping)
    {
      StartGame(id);
      ping := null;
      if identified && !locked {
        var now := Now();
        ping := new Timer(Ping(id), 0);
        EnqueueOwn(ping, now + 30 * 1000);
      }
    }

    /** The first ping of the game, if there is one, has joined the queue q at its place. */
    ghost predicate Started(ping: Timer?, q: seq<Timer>, ws: seq<nat>)
      requires |ws| == |q|
      reads this, queue, ping
    {
      if ping == null then queue.nodes == q && queue.ws == ws
      else ping.kind == Ping(game) && ping.when == clock + 30 * 1000 && Queued(ping, q, ws)
    }

    /** rc_client_queue_activate_game: due at once. */
    method QueueActivate(id: nat) returns (t: Timer)
      requires Inv()
      modifies queue, queue.nodes`next
      ensures Inv() && fresh(t) && t.kind == Activate(id) && t.when == 0
      ensures Queued(t, old(queue.nodes), old(queue.ws)) && queue.elems == old(queue.elems) + {t}
    {
      t := new Timer(Activate(id), 0);
      EnqueueOwn(t, 0);
    }

    method StartGame(id: nat)
      requires Inv() && game == 0 && id != 0
      modifies this`game
      ensures Inv() && game == id
    {
      NoGameNoPings();
      game := id;
    }

    /** Queue anything but a hide timer. */
    method EnqueueOwn(t: Timer, when: nat)
      requires Inv() && t !in queue.elems && Owned(t) && !t.kind.HideProgress?
      modifies queue, queue.nodes`next, t`when, t`next
      ensures Inv() && t.when == when
      ensures Queued(t, old(queue.nodes), old(queue.ws)) && queue.elems == old(queue.elems) + {t}
    {
      assert t != hideTimer;
      Enqueue(t, when);
      assert AllOwned() by {
        assert forall n :: n in old(queue.elems) ==> Owned(n);
      }
    }

    /** A request failed in a way worth retrying, at least for the second time: award and submit use the
        same arithmetic. */
    method RetryLater(t: Timer)
      requires Inv() && t !in queue.elems && t.kind.Retry? && t.retries >= 1
      modifies this`clock, queue, queue.nodes`next, t
      ensures Inv() && clock >= old(clock)
      ensures t.retries == old(t.retries) + 1 && t.when == clock + RetryDelay(t.retries) * 1000 > clock
      ensures Queued(t, old(queue.nodes), old(queue.ws)) && queue.elems == old(queue.elems) + {t}
    {
      hide Queue.Valid, Alternates, Visible, Pow2;
      CountRetry(t);
      var delay := if t.retries > 8 then 120 else Pow2(t.retries - 2);
      BackoffSchedule(t.retries);
      var now := Now();
      EnqueueOwn(t, now + delay * 1000);
    }

    method CountRetry(t: Timer)
      requires Inv() && t !in queue.elems && t.kind.Retry?
      modifies t`retries
      ensures Inv() && t.retries == old(t.retries) + 1
    {
      t.retries := t.retries + 1;
      ElemsAre(queue.nodes, t);
    }

    /** t has joined the queue q at its place. */
    ghost predicate Queued(t: Timer, q: seq<Timer>, ws: seq<nat>)
      requires |ws| == |q|
      reads queue, t
    {
      var k := Slot(ws, t.when);
      queue.nodes == Insert(q, k, t) && queue.ws == Insert(ws, k, t.when)
    }

    // -------------------------------------------------------------- idling

    /** While a callback runs its timer is out of the queue. */
    ghost predicate Popped(t: Timer)
      reads this, queue, queue.nodes, queue.elems, hideTimer, t
    {
      && queue.Valid() && t !in queue.elems && Owned(t) && AllOwned()
      && (game == 0 ==> hideTimer == null)
      && (hideTimer != null ==> hideTimer.kind.HideProgress? && hideTimer.when <= clock + 2000)
      && (hideTimer != null && hideTimer != t ==> (hideTimer.when != 0 <==> hideTimer in queue.elems))
      && Alternates(log) && action == None && !pending
      && (Visible(log) <==> Armed() || hideTimer == t)
    }

    /** rc_client_progress_tracker_timer_elapsed. */
    method TimerElapsed(t: Timer)
      requires Popped(t) && t.kind.HideProgress?
      modifies this`log, this`fired, t`when
      ensures Inv() && log == old(log) + [Hide] && fired == old(fired) + [t]
    {
      fired := fired + [t];
      if action == None {
        ElemsAre(queue.nodes, t);
        hideTimer.when := 0;
        AlternatesOn(log, Hide);
        log := log + [Hide];
      }
    }

    /** rc_client_ping. */
    method PingAgain(t: Timer, now: nat)
      requires Popped(t) && t.kind.Ping? && now <= clock
      modifies this`fired, queue, queue.nodes`next, t`when, t`next
      ensures Inv() && t.when == now + 120 * 1000 && fired == old(fired) + [t]
      ensures Queued(t, old(queue.nodes), old(queue.ws)) && queue.elems == old(queue.elems) + {t}
    {
      fired := fired + [t];
      EnqueueOwn(t, now + 120 * 1000);
    }

    /** rc_client_award_achievement_retry and rc_client_submit_leaderboard_entry_retry: the request is sent again, and
        its answer may arrive at once. */
    method Resend(t: Timer, fails: bool)
      requires Popped(t) && t.kind.Retry?
      modifies this`clock, this`fired, queue, queue.nodes`next, t
      ensures Inv() && clock >= old(clock) && fired == old(fired) + [t]
      ensures fails ==> t.retries == old(t.retries) + 1 && t.when == clock + RetryDelay(t.retries) * 1000 > clock
      ensures fails ==> Queued(t, old(queue.nodes), old(queue.ws)) && queue.elems == old(queue.elems) + {t}
      ensures !fails ==> queue.nodes == old(queue.nodes) && queue.ws == old(queue.ws) && queue.elems == old(queue.elems)
    {
      fired := fired + [t];
      if fails {
        RetryLater(t);
      }
    }

    /** rc_client_dispatch_activate_game: the game is loaded unless another load has begun since. */
    method FinishLoad(t: Timer, reply: Reply) returns (ping: Timer?)
      requires Popped(t) && t.kind.Activate?
      modifies this`clock, this`game, this`fired, queue, queue.nodes`next
      ensures Inv() && clock >= old(clock) && fired == old(fired) + [t]
      ensures game == if old(game) == 0 && reply.current then t.kind.game else old(game)
      ensures ping != null <==>
              old(game) == 0 && reply.current && t.kind.game != 0 && reply.identified && !reply.locked
      ensures Started(ping, old(queue.nodes), old(queue.ws)) && queue.elems == old(queue.elems) + NonNull(ping)
      ensures ping == null || fresh(ping)
    {
      fired := fired + [t];
      ping := null;
      if reply.current && game == 0 && t.kind.game != 0 {
        ping := Load(t.kind.game, reply.identified, reply.locked);
      }
    }

    /** What the callback of t has left: the queue as it was, or one entry more, due later than now. */
    ghost predicate Requeued(t: Timer, extra: Timer?, q: seq<Timer>, ws: seq<nat>, now: nat)
      requires |ws| == |q|
      reads queue, t, extra
    {
      if extra == null then queue.nodes == q && queue.ws == ws && !t.kind.Ping?
      else
        && extra.when > now && Queued(extra, q, ws)
        && (t.kind.Ping? ==> extra == t && t.when == now + 120 * 1000)
        && (extra != t ==> t.kind.Activate? && extra.kind == Ping(t.kind.game))
    }

    /** The callback of a due timer runs. */
    method Fire(t: Timer, now: nat, reply: Reply) returns (ghost extra: Timer?)
      requires Popped(t) && now <= clock
      modifies this`clock, this`game, this`log, this`fired, queue, queue.nodes`next, t
      ensures Inv() && clock >= old(clock) && fired == old(fired) + [t]
      ensures Requeued(t, extra, old(queue.nodes), old(queue.ws), now)
      ensures t.kind.Retry? ==> extra == if reply.fails then t else null
      ensures extra == t && t.kind.Retry? ==>
                t.retries == old(t.retries) + 1 && t.when == clock + RetryDelay(t.retries) * 1000
      ensures t.kind.Activate? ==>
                (extra != null <==>
                 old(game) == 0 && reply.current && t.kind.game != 0 && reply.identified && !reply.locked)
      ensures t.kind.Activate? && extra != null ==> extra.kind == Ping(game) && extra.when == clock + 30 * 1000
      ensures game == if old(game) == 0 && t.kind.Activate? && reply.current then t.kind.game else old(game)
      ensures queue.elems == old(queue.elems) + NonNull(extra) && (extra == null || extra == t || fresh(extra))
      ensures log == old(log) + (if t.kind.HideProgress? then [Hide] else [])
    {
      extra := null;
      match t.kind
      case HideProgress => TimerElapsed(t);
      case Ping(_) =>
        PingAgain(t, now);
        extra := t;
      case Retry =>
        Resend(t, reply.fails);
        extra := if reply.fails then t else null;
      case Activate(_) =>
        extra := FinishLoad(t, reply);
    }

    /** rc_client_idle: with the time sampled once, the callbacks of exactly the entries due by then run, each once
        and in queue order. What is left or has been requeued is due later, a ping in two minutes, a request that has
        failed again after its delay; nothing else that has fired is queued again. */
    method Idle(reply: Timer -> Reply) returns (now: nat, ghost due: nat)
      requires Inv()
      modifies this`clock, this`game, this`log, this`fired, queue, queue.elems
      ensures Inv()
      ensures old(clock) <= now <= clock
      ensures due <= |old(queue.nodes)| && IsSlot(old(queue.ws), now, due)
      ensures forall i :: 0 <= i < |old(queue.ws)| && old(queue.ws)[i] <= old(clock) ==> i < due
      ensures fired == old(fired) + old(queue.nodes)[..due]
      ensures forall i :: 0 <= i < |queue.ws| ==> queue.ws[i] > now
      ensures forall i :: due <= i < |old(queue.nodes)| ==> old(queue.nodes)[i] in queue.elems
      ensures var q := old(queue.nodes);
              forall i :: 0 <= i < due ==>
                && (q[i] in queue.elems <==> q[i].kind.Ping? || (q[i].kind.Retry? && reply(q[i]).fails))
                && (q[i].kind.Ping? ==> q[i].when == now + 120 * 1000)
                && (q[i].kind.Retry? && reply(q[i]).fails ==>
                      q[i].retries >= 2 && q[i].when >= now + RetryDelay(q[i].retries) * 1000)
      ensures game == GameAfter(old(game), old(queue.nodes), due, reply)
      ensures forall n :: n in queue.elems ==> n in old(queue.elems) || fresh(n)
      ensures log == old(log) + (if Occurs(old(hideTimer), old(queue.nodes)[..due]) then [Hide] else [])
    {
      now, due := clock, 0;
      if queue.head != null {
        now := Now();
        due := FireUpTo(now, reply);
      }
    }

    /** Fire what is due now. */
    method FireUpTo(now: nat, reply: Timer -> Reply) returns (ghost due: nat)
      requires Inv() && now == clock
      modifies this`clock, this`game, this`log, this`fired, queue, queue.elems
      ensures Inv() && now <= clock
      ensures due <= |old(queue.nodes)| && IsSlot(old(queue.ws), now, due)
      ensures forall i :: 0 <= i < |old(queue.ws)| && old(queue.ws)[i] <= now ==> i < due
      ensures fired == old(fired) + old(queue.nodes)[..due]
      ensures forall i :: 0 <= i < |queue.ws| ==> queue.ws[i] > now
      ensures forall i :: due <= i < |old(queue.nodes)| ==> old(queue.nodes)[i] in queue.elems
      ensures var q := old(queue.nodes);
              forall i :: 0 <= i < due ==>
                && (q[i] in queue.elems <==> q[i].kind.Ping? || (q[i].kind.Retry? && reply(q[i]).fails))
                && (q[i].kind.Ping? ==> q[i].when == now + 120 * 1000)
                && (q[i].kind.Retry? && reply(q[i]).fails ==>
                      q[i].retries >= 2 && q[i].when >= now + RetryDelay(q[i].retries) * 1000)
      ensures game == GameAfter(old(game), old(queue.nodes), due, reply)
      ensures forall n :: n in queue.elems ==> n in old(queue.elems) || fresh(n)
      ensures log == old(log) + (if Occurs(old(hideTimer), old(queue.nodes)[..due]) then [Hide] else [])
    {
      hide Occurs, Alternates, Visible, Client.Timely;
      due := Slot(queue.ws, now);
      DueByThen(queue.ws, now, due);
      FireDue(due, now, reply);
    }

    /** Whatever was due earlier is in front of the slot. */
    lemma DueByThen(ws: seq<nat>, now: nat, due: nat)
      requires Sorted(ws) && IsSlot(ws, now, due)
      ensures forall i :: 0 <= i < |ws| && ws[i] <= now ==> i < due
    {
    }

    /** The first n of q have fired: the pings and the failed requests among them are queued again. */
    ghost predicate AllSettled(q: seq<Timer>, n: nat, now: nat, reply: Timer -> Reply)
      requires n <= |q|
      reads queue, q
    {
      forall i :: 0 <= i < n ==> Settled(q[i], now, reply(q[i]))
    }

    /** What the queue holds of a timer that has fired. */
    ghost predicate Settled(t: Timer, now: nat, reply: Reply)
      reads queue, t
    {
      && (t in queue.elems <==> t.kind.Ping? || (t.kind.Retry? && reply.fails))
      && (t.kind.Ping? ==> t.when == now + 120 * 1000)
      && (t.kind.Retry? && reply.fails ==> t.retries >= 2 && t.when >= now + RetryDelay(t.retries) * 1000)
    }

    /** The callbacks of the first f entries of q have run since these logs. */
    ghost predicate HaveFired(q: seq<Timer>, f: nat, log0: seq<Event>, fired0: seq<Timer>, game0: nat,
        reply: Timer -> Reply)
      requires f <= |q|
      reads this`hideTimer, this`log, this`fired, this`game
    {
      && fired == fired0 + q[..f] && game == GameAfter(game0, q, f, reply)
      && log == log0 + if Occurs(hideTimer, q[..f]) then [Hide] else []
    }

    /** The loop of rc_client_idle. */
    method FireDue(ghost due: nat, now: nat, reply: Timer -> Reply)
      requires Inv() && due == Slot(queue.ws, now) && now == clock
      modifies this`clock, this`game, this`log, this`fired, queue, queue.elems
      ensures Inv() && Draining(old(queue.nodes), due, due, now)
      ensures HaveFired(old(queue.nodes), due, old(log), old(fired), old(game), reply)
      ensures AllSettled(old(queue.nodes), due, now, reply)
      ensures forall n :: n in queue.elems ==> n in old(queue.elems) || fresh(n)
    {
      ghost var q := queue.nodes;
      ghost var f := 0;
      ChainDistinct(queue.head, q);
      ElemsAll(q);
      var more := true;
      while more
        invariant Inv() && Draining(q, f, due, now) && AllSettled(q, f, now, reply)
        invariant HaveFired(q, f, old(log), old(fired), old(game), reply)
        invariant forall n :: n in queue.elems ==> n in old(queue.elems) || fresh(n)
        invariant !more ==> f == due
        decreases more, due - f
      {
        more := FireOne(q, f, due, now, reply, old(log), old(fired), old(game));
        if more {
          f := f + 1;
        }
      }
    }

    method FireOne(ghost q: seq<Timer>, ghost f: nat, ghost due: nat, now: nat, reply: Timer -> Reply,
                   ghost log0: seq<Event>, ghost fired0: seq<Timer>, ghost game0: nat)
      returns (more: bool)
      requires Inv() && Draining(q, f, due, now) && AllSettled(q, f, now, reply)
      requires HaveFired(q, f, log0, fired0, game0, reply)
      modifies this`clock, this`game, this`log, this`fired, queue, queue.elems
      ensures Inv() && more == (f < due) && Draining(q, if more then f + 1 else f, due, now)
      ensures AllSettled(q, if more then f + 1 else f, now, reply)
      ensures HaveFired(q, if more then f + 1 else f, log0, fired0, game0, reply)
      ensures forall n :: n in queue.elems ==> n in old(queue.elems) || fresh(n)
    {
      more := FireNext(q, f, due, now, reply);
      if more {
        OccursStep(hideTimer, q, f);
        assert q[..f + 1] == q[..f] + [q[f]];
      }
    }

    /** The due entries still queued are those of q from position f on, and q's later entries are all there. */
    ghost predicate Draining(q: seq<Timer>, f: nat, due: nat, now: nat)
      reads this, queue
    {
      && now <= clock && Distinct(q) && f <= due <= |q|
      && Rest(queue.nodes, queue.ws, q, f, due, now)
      && forall i :: due <= i < |q| ==> q[i] in queue.elems
    }

    /** The body of the loop of rc_client_idle. */
    method FireNext(ghost q: seq<Timer>, ghost f: nat, ghost due: nat, now: nat, reply: Timer -> Reply)
      returns (more: bool)
      requires Inv() && Draining(q, f, due, now) && AllSettled(q, f, now, reply)
      modifies this`clock, this`game, this`log, this`fired, queue, queue.elems
      ensures Inv() && more == (f < due) && Draining(q, if more then f + 1 else f, due, now)
      ensures fired == old(fired) + (if more then [q[f]] else [])
      ensures AllSettled(q, if more then f + 1 else f, now, reply)
      ensures game == if more && old(game) == 0 && q[f].kind.Activate? && reply(q[f]).current then q[f].kind.game
                      else old(game)
      ensures forall n :: n in queue.elems ==> n in old(queue.elems) || fresh(n)
      ensures log == old(log) + (if more && q[f] == hideTimer then [Hide] else [])
    {
      HeadDue(q, f, due, now);
      hide Alternates, Client.Inv, Client.Draining, Client.AllSettled;
      more := queue.head != null && queue.head.when <= now;
      if more {
        FireFront(q, f, due, now, reply);
      }
    }

    /** The head is due as long as due entries are left. */
    lemma HeadDue(q: seq<Timer>, f: nat, due: nat, now: nat)
      requires Inv() && Draining(q, f, due, now)
      ensures f < due <==> queue.head != null && queue.head.when <= now
    {
      assert queue.head == NodeAt(queue.nodes, 0) && (queue.head != null ==> queue.head.when == queue.ws[0]);
    }

    method FireFront(ghost q: seq<Timer>, ghost f: nat, ghost due: nat, now: nat, reply: Timer -> Reply)
      requires Inv() && Draining(q, f, due, now) && AllSettled(q, f, now, reply) && f < due && queue.head != null
      modifies this`clock, this`game, this`log, this`fired, queue, queue.elems
      ensures Inv() && Draining(q, f + 1, due, now) && fired == old(fired) + [q[f]]
      ensures AllSettled(q, f + 1, now, reply)
      ensures game == if old(game) == 0 && q[f].kind.Activate? && reply(q[f]).current then q[f].kind.game
                      else old(game)
      ensures forall n :: n in queue.elems ==> n in old(queue.elems) || fresh(n)
      ensures log == old(log) + (if q[f] == hideTimer then [Hide] else [])
    {
      hide Client.Inv, Client.Popped, Rest, Alternates, RetryDelay, Elems, Chain, Timed, Sorted, Queue.Valid;
      HeadQueued();
      hide Client.Inv, Client.Popped, Rest, Alternates;
      var t := TakeNext(q, f, due, now);
      FireTaken(q, f + 1, due, t, now, reply(t));
    }

    lemma HeadQueued()
      requires Inv() && queue.head != null
      ensures queue.head in queue.elems
    {
      assert queue.head == NodeAt(queue.nodes, 0);
      ElemsAre(queue.nodes, queue.head);
    }

    method FireTaken(ghost q: seq<Timer>, ghost f: nat, ghost due: nat, t: Timer, now: nat, reply: Reply)
      requires Popped(t) && now <= clock && f <= due <= |q| && Rest(queue.nodes, queue.ws, q, f, due, now)
      modifies this`clock, this`game, this`log, this`fired, queue, queue.nodes`next, t
      ensures Inv() && clock >= old(clock) && Rest(queue.nodes, queue.ws, q, f, due, now)
      ensures fired == old(fired) + [t] && Settled(t, now, reply)
      ensures game == if old(game) == 0 && t.kind.Activate? && reply.current then t.kind.game else old(game)
      ensures old(queue.elems) <= queue.elems
      ensures forall n :: n in queue.elems ==> n in old(queue.elems) || n == t || fresh(n)
      ensures log == old(log) + (if t == hideTimer then [Hide] else [])
    {
      ghost var nodes, ws := queue.nodes, queue.ws;
      ghost var extra := Fire(t, now, reply);
      if extra != null {
        RestInserted(nodes, ws, q, f, due, now, extra, extra.when);
      }
    }

    /** The removal of the front entry. */
    method TakeNext(ghost q: seq<Timer>, ghost f: nat, ghost due: nat, now: nat) returns (t: Timer)
      requires Inv() && f < due <= |q| && Rest(queue.nodes, queue.ws, q, f, due, now) && queue.head != null
      modifies queue, queue.head`next
      ensures Popped(t) && t == q[f] && Rest(queue.nodes, queue.ws, q, f + 1, due, now)
      ensures t in old(queue.elems) && queue.elems == old(queue.elems) - {t}
      ensures forall k :: 0 <= k < |queue.nodes| ==> queue.nodes[k] in old(queue.elems)
    {
      RestTaken(queue.nodes, queue.ws, q, f, due, now);
      ElemsAre(queue.nodes, queue.head);
      t := queue.PopFront();
      forall k | 0 <= k < |queue.nodes| ensures queue.nodes[k] in queue.elems {
        ElemsAre(queue.nodes, queue.nodes[k]);
      }
    }
  }

  /** The queue without the hide timer; the other entries keep their order. */
  ghost function Less(q: seq<Timer>, t: Timer?): seq<Timer> {
    if t == null then q else Without(q, t)
  }

  lemma ElemsAreOf(q: seq<Timer>)
    ensures forall n :: n in Elems(q) <==> n in q
  {
    forall n ensures n in Elems(q) <==> n in q {
      ElemsAre(q, n);
    }
  }

  lemma StillAmong(a: seq<Timer>, b: seq<Timer>)
    requires Elems(a) <= Elems(b)
    ensures forall k :: 0 <= k < |a| ==> a[k] in b
  {
    forall k | 0 <= k < |a| ensures a[k] in b {
      ElemsAre(a, a[k]);
      ElemsAre(b, a[k]);
    }
  }

  ghost predicate Occurs(t: Timer?, s: seq<Timer>) {
    exists i :: 0 <= i < |s| && s[i] == t
  }

  lemma OccursStep(t: Timer?, q: seq<Timer>, f: nat)
    requires Distinct(q) && f < |q|
    ensures Occurs(t, q[..f + 1]) <==> Occurs(t, q[..f]) || q[f] == t
    ensures !(Occurs(t, q[..f]) && q[f] == t)
  {
    if i :| 0 <= i < f && q[i] == t {
      assert q[..f][i] == t && q[..f + 1][i] == t;
    }
    if q[f] == t {
      assert q[..f + 1][f] == t;
    }
  }

  /** The due entries still in the queue are those of q from position f on. */
  ghost predicate Rest(nodes: seq<Timer>, ws: seq<nat>, q: seq<Timer>, f: nat, due: nat, now: nat)
    requires f <= due <= |q|
  {
    && |ws| == |nodes| && IsSlot(ws, now, due - f)
    && forall i :: 0 <= i < due - f ==> nodes[i] == q[f + i]
  }

  lemma RestTaken(nodes: seq<Timer>, ws: seq<nat>, q: seq<Timer>, f: nat, due: nat, now: nat)
    requires f < due <= |q| && Rest(nodes, ws, q, f, due, now)
    ensures nodes[0] == q[f] && Rest(nodes[1..], ws[1..], q, f + 1, due, now)
  {
    forall i | 0 <= i < due - f - 1 ensures nodes[1..][i] == q[f + 1 + i] {
      assert nodes[i + 1] == q[f + (i + 1)];
    }
  }

  /** An entry requeued for later leaves the due entries alone. */
  lemma RestInserted(nodes: seq<Timer>, ws: seq<nat>, q: seq<Timer>, f: nat, due: nat, now: nat, t: Timer, when: nat)
    requires f <= due <= |q| && Rest(nodes, ws, q, f, due, now) && when > now
    ensures Slot(ws, when) >= due - f
    ensures Rest(Insert(nodes, Slot(ws, when), t), Insert(ws, Slot(ws, when), when), q, f, due, now)
  {
    var k, d := Slot(ws, when), due - f;
    assert k >= d;
    var r := Insert(ws, k, when);
    assert d < |r| && now < r[d] by {
      assert r[d] == if d < k then ws[d] else when;
    }
  }

  lemma StaysBehind(q: seq<Timer>, ws: seq<nat>, t: Timer, when: nat)
    requires Timed(q, ws) && Sorted(ws)
    requires when == 0 ==> t in q
    requires t in q && when != 0 ==> t.when <= when
    ensures SafeMove(q, ws, t, when)
  {
    if t in q {
      var p := IndexOf(q, t);
      assert ws[p] == t.when;
    }
  }
}

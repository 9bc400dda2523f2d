/** The leaderboard trackers of rc_client.c: on-screen values shared by reference count between the
    leaderboards that are running, with their pending SHOW, UPDATE and HIDE events. */
module LeaderboardTrackers {
  import opened IndicatorEvents

  /** How many entries of `owner` are i. */
  function CountOf(owner: seq<int>, i: int): (n: nat)
    ensures n <= |owner|
  {
    if owner == [] then 0
    else CountOf(owner[..|owner| - 1], i) + if owner[|owner| - 1] == i then 1 else 0
  }

  lemma {:induction false} CountSet(owner: seq<int>, k: nat, v: int, i: int)
    requires k < |owner|
    ensures CountOf(owner[k := v], i) == CountOf(owner, i) - (if owner[k] == i then 1 else 0) + if v == i then 1 else 0
  {
    var n := |owner| - 1;
    if k == n {
      assert owner[k := v][..n] == owner[..n];
    } else {
      assert owner[k := v][..n] == owner[..n][k := v];
      CountSet(owner[..n], k, v, i);
    }
  }

  /** The count is the number of places. */
  lemma {:induction false} CountIsPlaces(owner: seq<int>, i: int)
    ensures CountOf(owner, i) == |set k | 0 <= k < |owner| && owner[k] == i|
  {
    var all := set k | 0 <= k < |owner| && owner[k] == i;
    if owner == [] {
      assert all == {};
    } else {
      var n := |owner| - 1;
      var front := owner[..n];
      var before := set k | 0 <= k < |front| && front[k] == i;
      CountIsPlaces(front, i);
      assert all == before + if owner[n] == i then {n} else {};
      assert n !in before;
    }
  }

  lemma {:induction false} CountPositive(owner: seq<int>, i: int)
    ensures CountOf(owner, i) > 0 <==> exists k :: 0 <= k < |owner| && owner[k] == i
  {
    if owner != [] {
      var n := |owner| - 1;
      CountPositive(owner[..n], i);
      if owner[n] != i && CountOf(owner, i) > 0 {
        var k :| 0 <= k < n && owner[..n][k] == i;
        assert owner[k] == i;
      }
      if k :| 0 <= k < n && owner[k] == i {
        assert owner[..n][k] == i;
      }
    }
  }

  lemma {:induction false} CountMany(owner: seq<int>, k: nat, i: int)
    requires k < |owner| && owner[k] != i
    ensures CountOf(owner, i) < |owner|
  {
    var n := |owner| - 1;
    if k < n {
      assert owner[..n][k] == owner[k];
      CountMany(owner[..n], k, i);
    }
  }

  /** The first n of `held` count the entries of `owner`. */
  ghost predicate Tally(owner: seq<int>, held: seq<nat>, n: nat) {
    n == 0 || (n <= |held| && held[n - 1] == CountOf(owner, n - 1) && Tally(owner, held, n - 1))
  }

  lemma {:induction false} TallyAt(owner: seq<int>, held: seq<nat>, n: nat, i: nat)
    requires Tally(owner, held, n) && i < n
    ensures i < |held| && held[i] == CountOf(owner, i)
  {
    if i < n - 1 {
      TallyAt(owner, held, n - 1, i);
    }
  }

  /** Entry k moves: its old and its new owner change by one. */
  lemma {:induction false} TallyMoves(owner: seq<int>, held: seq<nat>, n: nat, k: nat, v: int, held': seq<nat>)
    requires Tally(owner, held, n) && n <= |held| == |held'| && k < |owner|
    requires forall i :: 0 <= i < n ==>
               held'[i] as int - held[i] as int == (if v == i then 1 else 0) - (if owner[k] == i then 1 else 0)
    ensures Tally(owner[k := v], held', n)
  {
    if n > 0 {
      CountSet(owner, k, v, n - 1);
      TallyMoves(owner, held, n - 1, k, v, held');
    }
  }

  lemma UpdateToSame(owner: seq<int>, k: nat)
    requires k < |owner|
    ensures owner[k := owner[k]] == owner
  {
  }

  /** Entry k joins or leaves a tracker. */
  lemma TallyJoin(owner: seq<int>, held: seq<nat>, k: nat, j: nat)
    requires Tally(owner, held, |held|) && k < |owner| && owner[k] == -1 && j < |held|
    ensures held[j] < |owner| && Tally(owner[k := j], held[j := held[j] + 1], |held|)
  {
    TallyAt(owner, held, |held|, j);
    CountMany(owner, k, j);
    TallyMoves(owner, held, |held|, k, j, held[j := held[j] + 1]);
  }

  lemma TallyLeave(owner: seq<int>, held: seq<nat>, k: nat)
    requires Tally(owner, held, |held|) && k < |owner| && 0 <= owner[k] < |held|
    ensures held[owner[k]] > 0 && Tally(owner[k := -1], held[owner[k] := held[owner[k]] - 1], |held|)
  {
    var j := owner[k];
    TallyAt(owner, held, |held|, j);
    CountPositive(owner, j);
    TallyMoves(owner, held, |held|, k, -1, held[j := held[j] - 1]);
  }

  lemma {:induction false} TallyGrows(owner: seq<int>, held: seq<nat>, n: nat)
    requires Tally(owner, held, n) && n <= |held|
    ensures Tally(owner, held + [0], n)
  {
    if n > 0 {
      TallyGrows(owner, held, n - 1);
    }
  }

  lemma TallyNew(owner: seq<int>, held: seq<nat>)
    requires Tally(owner, held, |held|) && forall k :: 0 <= k < |owner| ==> owner[k] < |held|
    ensures Tally(owner, held + [0], |held| + 1)
  {
    CountPositive(owner, |held|);
    TallyGrows(owner, held, |held|);
  }

  /** The event due for a tracker with these events so far. */
  function Due(log: seq<Event>, count: nat, update: bool): seq<Event> {
    if count > 0 && !Visible(log) then [Show]
    else if count == 0 && Visible(log) then [Hide]
    else if update && Visible(log) then [Update]
    else []
  }

  /** What one round of raising has made of a tracker's events: what is due, and for a tracker that stays on
      screen an UPDATE or nothing. */
  predicate Reported(before: seq<Event>, after: seq<Event>, count: nat) {
    after == before + Due(before, count, false) || after == before + Due(before, count, true)
  }

  /** A round of raising keeps a tracker's events in the order SHOW, UPDATE.., HIDE, adds at most one of them, and
      leaves the tracker on screen exactly while it is referenced. */
  lemma ReportedAlternates(before: seq<Event>, after: seq<Event>, count: nat)
    requires Reported(before, after, count) && Alternates(before)
    ensures Alternates(after) && before <= after && |after| <= |before| + 1
    ensures Visible(after) <==> count > 0
  {
    assert before + [] == before;
    if after != before {
      AlternatesOn(before, after[|before|]);
    }
  }

  lemma ReportedSince(before: seq<seq<Event>>, grown: seq<seq<Event>>, after: seq<seq<Event>>, held: seq<nat>)
    requires before <= grown && (forall i :: |before| <= i < |grown| ==> grown[i] == []) && |grown| == |after|
    requires AllReported(grown, after, held)
    ensures AllReported(before, after, held)
  {
    forall i | 0 <= i < |before| ensures Reported(before[i], after[i], held[i]) {
      assert before[i] == grown[i];
    }
  }

  /** The same for all trackers; those behind the earlier ones are new. */
  ghost predicate AllReported(before: seq<seq<Event>>, after: seq<seq<Event>>, held: seq<nat>) {
    && |before| <= |after| == |held|
    && (forall i :: 0 <= i < |before| ==> Reported(before[i], after[i], held[i]))
    && (forall i :: |before| <= i < |after| ==> Reported([], after[i], held[i]))
  }

  /** rc_client_leaderboard_tracker_info_t. `log` holds the events raised for this id. */
  class Tracker {
    const id: nat
    var next: Tracker?
    var raw: int
    var djb2: nat
    var format: nat
    var fromHits: bool
    var count: nat              // reference_count
    var show: bool              // the three bits of pending_events
    var update: bool
    var hidden: bool
    var displayed: int          // the value public_.display was last formatted from
    ghost var log: seq<Event>

    constructor (id: nat)
      ensures this.id == id && next == null && count == 0 && !Pending() && log == [] && Life()
    {
      this.id := id;
      next, raw, djb2, format, fromHits, count := null, 0, 0, 0, false, 0;
      show, update, hidden, displayed, log := false, false, false, 0, [];
    }

    predicate Pending()
      reads this`show, this`update, this`hidden
    {
      show || update || hidden
    }

    /** Between a change and the raise: what the pending bits say about the count and the screen. */
    ghost predicate Life()
      reads this`raw, this`count, this`show, this`update, this`hidden, this`displayed, this`log
    {
      && Alternates(log)
      && (hidden ==> count == 0)
      && (if Visible(log) then !show && (hidden <==> count == 0) && (update || displayed == raw)
          else if show then (hidden <==> count == 0)
          else count == 0 && !hidden && !update)
    }

    /** After a raise: on screen exactly while referenced, showing its value. */
    ghost predicate Settled()
      reads this`raw, this`count, this`show, this`update, this`hidden, this`displayed, this`log
    {
      !Pending() && Alternates(log) && (Visible(log) <==> count > 0) && (Visible(log) ==> displayed == raw)
    }

    /** Show a new value. */
    method Take(v: int) returns (changed: bool)
      requires Life() && count > 0
      modifies this`raw, this`update
      ensures Life() && raw == v && (Pending() ==> changed || old(Pending()))
    {
      changed := raw != v;
      if changed {
        raw, update := v, true;
      }
    }

    /** One more leaderboard points here; the count is 8 bits wide. */
    method Share(v: int) returns (changed: bool)
      requires Life() && 0 < count < 255
      modifies this`raw, this`update, this`count, this`hidden
      ensures Life() && raw == v && count == old(count) + 1 && (Pending() ==> changed || old(Pending()))
    {
      changed := Take(v);
      count := (count + 1) % 256;
      hidden := false;
    }

    /** One less leaderboard points here. */
    method Leave()
      requires Life() && count > 0
      modifies this`count, this`hidden
      ensures Life() && count == old(count) - 1 && (Pending() ==> count == 0 || old(Pending()))
    {
      count := count - 1;
      if count == 0 {
        hidden := true;
      }
    }

    /** Reuse for another value. */
    method Claim(djb2: nat, format: nat, fromHits: bool, v: int)
      requires Life() && Unused(this)
      modifies this`djb2, this`format, this`fromHits, this`raw, this`count, this`show, this`update, this`hidden
      ensures Life() && count == 1 && raw == v && Pending()
      ensures this.djb2 == djb2 && this.format == format && this.fromHits == fromHits
    {
      count, this.djb2, this.format, raw := 1, djb2, format, v;
      show, update, hidden := true, false, false;
      this.fromHits := fromHits;
    }

    /** The body of the loop of rc_client_raise_leaderboard_tracker_events. */
    method Raise()
      requires Life()
      modifies this`show, this`update, this`hidden, this`displayed, this`log
      ensures Settled() && Life()
      ensures log == old(log) + Due(old(log), count, old(update))
    {
      if show || update {
        displayed := raw;
      }
      if hidden {
        if !show {
          AlternatesOn(log, Hide);
          log := log + [Hide];
        }
      } else if show {
        AlternatesOn(log, Show);
        log := log + [Show];
      } else if update {
        AlternatesOn(log, Update);
        log := log + [Update];
      }
      show, update, hidden := false, false, false;
    }
  }

  datatype State = Inactive | Active | Tracking | Disabled

  /** rc_lboard_t's state. */
  datatype Attempt = Idle | Waiting | Ready | Started | Canceled | Triggered | Unusable

  /** The events raised for a leaderboard, named by its place; a submission is sent before its event. */
  datatype Notice = HasStarted(board: nat) | HasFailed(board: nat) | WasSubmitted(board: nat)

  /** At most one event for each of the first n leaderboards, in their order. */
  predicate InOrder(told: seq<Notice>, n: nat) {
    && (forall i :: 0 <= i < |told| ==> told[i].board < n)
    && (forall i, j :: 0 <= i < j < |told| ==> told[i].board < told[j].board)
  }

  /** What is raised for leaderboard k: a failure comes before a submission and that before a start. */
  predicate Tells(told: seq<Notice>, k: nat, started: bool, failed: bool, submitted: bool) {
    && (HasFailed(k) in told <==> failed)
    && (WasSubmitted(k) in told <==> submitted && !failed)
    && (HasStarted(k) in told <==> started && !failed && !submitted)
  }

  lemma NobodyTold()
    ensures InOrder([], 0)
  {
  }

  lemma TellsMore(told: seq<Notice>, k: nat, started: bool, failed: bool, submitted: bool)
    requires InOrder(told, k)
    ensures var more := told + if failed then [HasFailed(k)] else if submitted then [WasSubmitted(k)]
                               else if started then [HasStarted(k)] else [];
            && InOrder(more, k + 1) && Tells(more, k, started, failed, submitted)
            && forall l: nat, s, f, b :: l < k && Tells(told, l, s, f, b) ==> Tells(more, l, s, f, b)
  {
  }

  lemma NothingTold(told: seq<Notice>, n: nat)
    requires InOrder(told, n) && forall k :: 0 <= k < n ==> Tells(told, k, false, false, false)
    ensures told == []
  {
    if told != [] {
      TellsNothing(told, told[0].board);
    }
  }

  lemma TellsNothing(told: seq<Notice>, k: nat)
    requires Tells(told, k, false, false, false)
    ensures forall i :: 0 <= i < |told| ==> told[i].board != k
  {
    forall i | 0 <= i < |told| ensures told[i].board != k {
      assert told[i] in told;
    }
  }

  /** What the conditions of a leaderboard say in one frame, and its value. */
  datatype Reading = Reading(start: bool, cancel: bool, submit: bool, value: int)

  /** rc_client_leaderboard_info_t with its rc_lboard_t. */
  class Board {
    const djb2: nat
    const format: nat
    const fromHits: bool
    const empty: bool           // the start trigger has no conditions
    ghost const index: nat      // its place in the array of leaderboards
    var state: State
    var attempt: Attempt
    var tracker: Tracker?
    var value: int
    var started: bool           // the three bits of pending_events
    var failed: bool
    var submitted: bool

    constructor (djb2: nat, format: nat, fromHits: bool, empty: bool, state: State, ghost index: nat)
      requires state != Tracking
      ensures this.index == index
      ensures this.djb2 == djb2 && this.format == format && this.fromHits == fromHits && this.empty == empty
      ensures Consistent() && !Pending() && tracker == null && this.state == state
    {
      this.djb2, this.format, this.fromHits, this.empty := djb2, format, fromHits, empty;
      this.index := index;
      this.state, attempt, tracker, value := state, if state == Disabled then Unusable else Waiting, null, 0;
      started, failed, submitted := false, false, false;
    }

    predicate Pending()
      reads this`started, this`failed, this`submitted
    {
      started || failed || submitted
    }

    /** A leaderboard holds a tracker while its attempt runs. Only a disabled one may hold one otherwise. */
    ghost predicate Consistent()
      reads this`state, this`attempt, this`tracker
    {
      match state
      case Tracking => tracker != null && attempt == Started
      case Active => tracker == null && attempt != Started
      case Inactive => tracker == null
      case Disabled => true
    }

    /** Between the marking and the restoring of rc_client_deserialize_progress_sized, where FAILED marks
        a leaderboard that was running. */
    ghost predicate Midway()
      reads this
    {
      && !started && !submitted
      && match state
         case Disabled => !failed
         case Inactive => !failed && tracker == null
         case Active => (!failed ==> tracker == null) && (failed && attempt == Started ==> tracker != null)
         case Tracking => failed && tracker != null
    }

    /** rc_evaluate_lboard. */
    method Evaluate(now: Reading) returns (r: Attempt)
      modifies this`attempt, this`value
      ensures attempt == match old(attempt)
                         case Idle | Unusable => old(attempt)
                         case Waiting | Canceled | Triggered => if now.start then old(attempt) else Ready
                         case Ready => if !now.start || now.cancel then Ready else if now.submit then Triggered
                                       else if empty then Ready else Started
                         case Started => if now.cancel then Canceled else if now.submit then Triggered else Started
      ensures r == if old(attempt) == attempt != Ready && attempt != Started then Idle else attempt
      ensures if old(attempt) == Idle || old(attempt) == Unusable then value == old(value)
              else value == if r == Started || r == Triggered then now.value else 0
    {
      if attempt == Idle || attempt == Unusable {
        return Idle;
      }
      match attempt {
        case Waiting | Triggered | Canceled =>
          if now.start {
            value := 0;
            return Idle;
          }
          attempt := Ready;
        case Ready =>
          if now.start && !now.cancel {
            if now.submit {
              attempt := Triggered;
            } else if !empty {
              attempt := Started;
            }
          }
        case Started =>
          if now.cancel {
            attempt := Canceled;
          } else if now.submit {
            attempt := Triggered;
          }
        case _ =>
      }
      value := if attempt == Started || attempt == Triggered then now.value else 0;
      return attempt;
    }
  }

  /** Such a tracker can be shared: same value definition, same format, same value unless it may just have moved on. */
  ghost predicate Sharable(t: Tracker, b: Board)
    reads t, b
  {
    t.count != 0 && t.djb2 == b.djb2 && t.format == b.format && (t.raw == b.value || !t.fromHits)
  }

  predicate Unused(t: Tracker)
    reads t
  {
    t.count == 0 && !t.Pending()
  }

  function TrackerAt(list: seq<Tracker>, i: int): Tracker? {
    if 0 <= i < |list| then list[i] else null
  }

  /** The tracker with a pending bit that `flag` does not announce is not there. */
  ghost predicate Announced(t: Tracker, flag: bool)
    reads t`show, t`update, t`hidden
  {
    t.Pending() ==> flag
  }

  class Game {
    const boards: seq<Board>
    var head: Tracker?              // leaderboard_trackers
    var trackersPending: bool       // two bits of pending_events: the game's and the subset's
    var boardsPending: bool
    ghost var list: seq<Tracker>
    ghost var owner: seq<int>       // for each leaderboard the position of its tracker, -1 for none
    ghost var held: seq<nat>        // for each tracker the number of leaderboards that hold it
    ghost var logs: seq<seq<Event>> // for each tracker the events raised for it

    /** The trackers in list order carry the ids 1, 2, 3, ... */
    ghost predicate Linked()
      reads this`head, this`list, list`next
    {
      && head == TrackerAt(list, 0)
      && (forall i {:trigger list[i].next} :: 0 <= i < |list| ==> list[i].next == TrackerAt(list, i + 1))
      && (forall i {:trigger list[i]} :: 0 <= i < |list| ==> list[i].id == i + 1)
    }

    ghost predicate Owners()
      reads this`list, this`owner, boards`tracker
    {
      && |owner| == |boards| <= 255
      && (forall k {:trigger boards[k]} :: 0 <= k < |boards| ==> boards[k].index == k)
      && (forall k :: 0 <= k < |boards| ==> -1 <= owner[k] < |list| && boards[k].tracker == TrackerAt(list, owner[k]))
    }

    ghost predicate Trackers()
      reads this`list, this`held, this`logs, this`trackersPending, list
    {
      |held| == |logs| == |list| &&
      forall i {:trigger list[i]} :: 0 <= i < |list| ==>
        list[i].Life() && list[i].count == held[i] && list[i].log == logs[i] && Announced(list[i], trackersPending)
    }

    /** Every count is the number of leaderboards that hold the tracker. */
    ghost predicate Lives()
      reads this`list, this`owner, this`held, this`logs, this`trackersPending, list
    {
      Trackers() && Tally(owner, held, |held|)
    }

    /** A leaderboard only holds a tracker of its own value definition and format. */
    ghost predicate Fitting()
      reads this`list, this`owner, list`djb2, list`format
    {
      |owner| == |boards| && forall k :: 0 <= k < |boards| && 0 <= owner[k] < |list| ==>
        list[owner[k]].djb2 == boards[k].djb2 && list[owner[k]].format == boards[k].format
    }

    ghost predicate Core()
      reads this`head, this`list, this`owner, this`held, this`logs, this`trackersPending, list, boards`tracker
    {
      Linked() && Owners() && Lives() && Fitting()
    }

    ghost predicate Boards()
      reads boards`state, boards`attempt, boards`tracker
    {
      forall k :: 0 <= k < |boards| ==> boards[k].Consistent()
    }

    /** Between calls. */
    ghost predicate Inv()
      reads this, list, boards
    {
      && Core() && Boards()
      && (forall i {:trigger list[i]} :: 0 <= i < |list| ==> list[i].Settled())
      && (forall k :: 0 <= k < |boards| ==> !boards[k].Pending())
    }

    constructor (boards: seq<Board>)
      requires |boards| <= 255
      requires forall k {:trigger boards[k]} :: 0 <= k < |boards| ==> boards[k].index == k
      requires forall k :: 0 <= k < |boards| ==>
                 boards[k].Consistent() && boards[k].tracker == null && !boards[k].Pending()
      ensures this.boards == boards && Inv() && list == []
    {
      this.boards := boards;
      head, trackersPending, boardsPending, list := null, false, false, [];
      owner, held, logs := seq(|boards|, i => -1), [], [];
    }

    /** The loop of rc_client_allocate_leaderboard_tracker: the first tracker to share, else the first unused one. */
    method Search(b: Board) returns (shared: Tracker?, unused: Tracker?, ghost j: int, ghost u: int)
      requires Linked()
      ensures shared == TrackerAt(list, j) && unused == TrackerAt(list, u) && -1 <= j < |list| && -1 <= u < |list|
      ensures j >= 0 ==> Sharable(list[j], b)
      ensures forall i :: 0 <= i < (if j >= 0 then j else |list|) ==> !Sharable(list[i], b)
      ensures u >= 0 ==> Unused(list[u])
      ensures j < 0 ==> forall i :: 0 <= i < (if u >= 0 then u else |list|) ==> !Unused(list[i])
    {
      shared, unused, j, u := null, null, -1, -1;
      ghost var i := 0;
      var tracker := head;
      while tracker != null
        invariant 0 <= i <= |list| && tracker == TrackerAt(list, i)
        invariant unused == TrackerAt(list, u) && -1 <= u < |list| && (u >= 0 ==> Unused(list[u]))
        invariant forall m :: 0 <= m < i ==> !Sharable(list[m], b)
        invariant forall m :: 0 <= m < (if u >= 0 then u else i) ==> !Unused(list[m])
        decreases |list| - i
      {
        if tracker.count == 0 {
          if unused == null && !tracker.show && !tracker.update && !tracker.hidden {
            unused, u := tracker, i;
          }
        } else if tracker.djb2 == b.djb2 && tracker.format == b.format
                  && (tracker.raw == b.value || !tracker.fromHits) {
          return tracker, unused, i, u;
        }
        tracker, i := tracker.next, i + 1;
      }
    }

    /** The list has only grown, by new trackers. */
    twostate predicate Extended()
      reads this
    {
      old(list) <= list && forall i {:trigger list[i]} :: |old(list)| <= i < |list| ==> fresh(list[i])
    }

    /** The same, and no event has been raised. */
    twostate predicate Grown()
      reads this
    {
      && Extended()
      && old(logs) <= logs && (forall i :: |old(logs)| <= i < |logs| ==> logs[i] == [])
    }

    /** One more leaderboard for tracker j. */
    method ShareAt(t: Tracker, ghost j: nat, v: int)
      requires Linked() && Trackers() && j < |list| && t == list[j] && 0 < t.count < 255
      modifies this`trackersPending, this`held, t`raw, t`update, t`count, t`hidden
      ensures Linked() && Trackers() && held == old(held)[j := old(held)[j] + 1] && t.raw == v
    {
      var changed := t.Share(v);
      if changed {
        trackersPending := true;
      }
      held := held[j := held[j] + 1];
    }

    /** Attach to a shared tracker. */
    method Attach(k: nat, t: Tracker, ghost j: nat)
      requires Core() && k < |boards| && owner[k] == -1 && j < |list| && t == list[j] && Sharable(t, boards[k])
      modifies this`trackersPending, this`owner, this`held, {boards[k]}`tracker
      modifies t`raw, t`update, t`count, t`hidden
      ensures Core() && owner == old(owner)[k := j]
      ensures t.raw == boards[k].value
    {
      hide Linked, Tracker.Life, Tally, CountOf;
      TallyJoin(owner, held, k, j);
      ShareAt(t, j, boards[k].value);
      Hold(k, t, j);
    }

    /** Leaderboard k points at tracker j. */
    method Hold(k: nat, t: Tracker, ghost j: nat)
      requires Owners() && Fitting() && k < |boards| && j < |list| && t == list[j]
      requires t.djb2 == boards[k].djb2 && t.format == boards[k].format
      modifies this`owner, {boards[k]}`tracker
      ensures Owners() && Fitting() && owner == old(owner)[k := j]
    {
      boards[k].tracker := t;
      owner := owner[k := j];
    }

    /** The last tracker and the id behind it. */
    method FindLast() returns (last: Tracker?, id: nat)
      requires Linked()
      ensures last == TrackerAt(list, |list| - 1) && id == |list| + 1
    {
      id := 1;
      ghost var i := 0;
      last := null;
      var tracker := head;
      while tracker != null
        invariant 0 <= i <= |list| && tracker == TrackerAt(list, i) && id == i + 1
        invariant last == TrackerAt(list, i - 1)
        decreases |list| - i
      {
        last, tracker, id, i := tracker, tracker.next, id + 1, i + 1;
      }
    }

    method LinkLast(last: Tracker?, t: Tracker)
      requires Linked() && last == TrackerAt(list, |list| - 1)
      requires t !in list && t.next == null && t.id == |list| + 1
      modifies this`head, this`list, list`next
      ensures Linked() && list == old(list) + [t] && t.next == null
    {
      if last == null {
        head := t;
      } else {
        last.next := t;
      }
      list := list + [t];
    }

    method Enlist(last: Tracker?, t: Tracker)
      requires Linked() && Trackers() && last == TrackerAt(list, |list| - 1)
      requires t !in list && t.next == null && t.id == |list| + 1
      requires t.Life() && t.count == 0 && t.log == [] && !t.Pending()
      modifies this`head, this`list, this`held, this`logs, list`next
      ensures Linked() && Trackers() && list == old(list) + [t]
      ensures held == old(held) + [0] && logs == old(logs) + [[]]
    {
      hide Linked, Tracker.Life;
      LinkLast(last, t);
      held, logs := held + [0], logs + [[]];
    }

    /** Append a tracker with the next id. */
    method Append() returns (t: Tracker)
      requires Core()
      modifies this`head, this`list, this`held, this`logs, list`next
      ensures Core() && fresh(t) && list == old(list) + [t] && logs == old(logs) + [[]] && Unused(t)
    {
      hide Linked, Tracker.Life, Tally;
      var last, id := FindLast();
      t := new Tracker(id);
      TallyNew(owner, held);
      Enlist(last, t);
    }

    /** The first leaderboard for tracker j. */
    method ClaimAt(t: Tracker, ghost j: nat, b: Board)
      requires Linked() && Trackers() && j < |list| && t == list[j] && Unused(t)
      modifies this`trackersPending, this`held
      modifies t`djb2, t`format, t`fromHits, t`raw, t`count, t`show, t`update, t`hidden
      ensures Linked() && Trackers() && held == old(held)[j := old(held)[j] + 1] && t.raw == b.value
      ensures t.djb2 == b.djb2 && t.format == b.format && t.fromHits == b.fromHits
    {
      t.Claim(b.djb2, b.format, b.fromHits, b.value);
      held := held[j := held[j] + 1];
      trackersPending := true;
    }

    /** Claim an unused tracker. */
    method Claim(k: nat, t: Tracker, ghost j: nat)
      requires Core() && k < |boards| && owner[k] == -1 && j < |list| && t == list[j] && Unused(t)
      modifies this`trackersPending, this`owner, this`held, {boards[k]}`tracker
      modifies t`djb2, t`format, t`fromHits, t`raw, t`count, t`show, t`update, t`hidden
      ensures Core() && owner == old(owner)[k := j]
      ensures t.raw == boards[k].value && t.fromHits == boards[k].fromHits
    {
      hide Linked, Tracker.Life, Tally, CountOf;
      NobodyHolds(j);
      OneOfEach();
      TallyJoin(owner, held, k, j);
      ClaimAt(t, j, boards[k]);
      Hold(k, t, j);
    }

    /** A tracker that nothing refers to is no leaderboard's. */
    lemma NobodyHolds(j: nat)
      requires Lives() && j < |list| && list[j].count == 0
      ensures forall k :: 0 <= k < |owner| ==> owner[k] != j
    {
      TallyAt(owner, held, |held|, j);
      CountPositive(owner, j);
    }

    lemma OneOfEach()
      requires Linked()
      ensures forall i, j :: 0 <= i < j < |list| ==> list[i] != list[j]
    {
      forall i, j | 0 <= i < j < |list| ensures list[i] != list[j] {
        assert list[i].id == i + 1 && list[j].id == j + 1;
      }
    }

    /** rc_client_allocate_leaderboard_tracker. */
    method Allocate(k: nat) returns (ghost j: nat)
      requires Core() && k < |boards| && owner[k] == -1
      modifies this, list, {boards[k]}`tracker
      ensures Core() && j < |list| && owner == old(owner)[k := j] && boardsPending == old(boardsPending)
      ensures Grown()
      ensures list[j].raw == boards[k].value
      ensures j < |old(list)| && old(list[j].count) > 0 ==>
                && list[j].djb2 == old(list[j].djb2) == boards[k].djb2
                && list[j].format == old(list[j].format) == boards[k].format
                && (old(list[j].raw) == boards[k].value || !old(list[j].fromHits))
      ensures forall i :: 0 <= i < |old(list)| ==>
                old(list[i].count > 0 && list[i].djb2 == boards[k].djb2 && list[i].format == boards[k].format &&
                    (list[i].raw == boards[k].value || !list[i].fromHits)) ==>
                  j <= i && old(list[j].count) > 0
      ensures j < |old(list)| && old(list[j].count) == 0 ==>
                !old(list[j].Pending()) &&
                  forall i :: 0 <= i < j ==> old(list[i].count > 0 || list[i].Pending())
      ensures j >= |old(list)| ==>
                && j == |old(list)| && |list| == j + 1
                && forall i :: 0 <= i < |old(list)| ==> old(list[i].count > 0 || list[i].Pending())
    {
      hide Linked, Owners, Lives, Tally;
      var shared, unused;
      ghost var s, u;
      shared, unused, s, u := Search(boards[k]);
      if shared != null {
        Attach(k, shared, s);
        return s;
      }
      if unused == null {
        u := |list|;
        unused := Append();
      }
      Claim(k, unused, u);
      j := u;
    }

    /** rc_client_release_leaderboard_tracker. */
    method Release(k: nat)
      requires Core() && k < |boards|
      modifies this`trackersPending, this`owner, this`held, NonNull(boards[k].tracker), {boards[k]}`tracker
      ensures Core() && owner == old(owner)[k := -1]
    {
      if boards[k].tracker == null {
        assert owner[k] == -1;
        UpdateToSame(owner, k);
      } else {
        ReleaseHeld(k);
      }
    }

    /** One leaderboard less for tracker j. */
    method LeaveAt(t: Tracker, ghost j: nat)
      requires Linked() && Trackers() && j < |list| && t == list[j] && t.count > 0
      modifies this`trackersPending, this`held, t`count, t`hidden
      ensures Linked() && Trackers() && held == old(held)[j := old(held)[j] - 1]
    {
      t.Leave();
      if t.count == 0 {
        trackersPending := true;
      }
      held := held[j := held[j] - 1];
    }

    method ReleaseHeld(k: nat)
      requires Core() && k < |boards| && boards[k].tracker != null
      modifies this`trackersPending, this`owner, this`held, boards[k].tracker, {boards[k]}`tracker
      ensures Core() && owner == old(owner)[k := -1]
    {
      hide Linked, Tracker.Life, Tally, CountOf;
      TallyLeave(owner, held, k);
      LeaveAt(boards[k].tracker, owner[k]);
      boards[k].tracker := null;
      owner := owner[k := -1];
    }

    method TakeAt(t: Tracker, ghost j: nat, v: int)
      requires Linked() && Trackers() && j < |list| && t == list[j] && t.count > 0
      modifies this`trackersPending, t`raw, t`update
      ensures Linked() && Trackers() && t.raw == v
    {
      var changed := t.Take(v);
      if changed {
        trackersPending := true;
      }
    }

    /** rc_client_update_leaderboard_tracker. */
    method Refresh(k: nat)
      requires Core() && k < |boards|
      modifies this`trackersPending, NonNull(boards[k].tracker)
      ensures Core()
      ensures boards[k].tracker != null ==> boards[k].tracker.raw == boards[k].value
    {
      hide Linked, Tracker.Life;
      var t := boards[k].tracker;
      if t != null {
        TallyLeave(owner, held, k);
        TakeAt(t, owner[k], boards[k].value);
      }
    }

    /** The round for the tracker at position i. */
    method RaiseOne(t: Tracker, ghost i: nat)
      requires Core() && i < |list| && t == list[i]
      modifies this`logs, t`show, t`update, t`hidden, t`displayed, t`log
      ensures Core() && t.Settled()
      ensures logs == old(logs)[i := old(logs)[i] + Due(old(logs)[i], held[i], old(t.update))]
    {
      hide Game.Linked, Tracker.Life, Game.Fitting, Tracker.Settled;
      RaiseAt(t, i);
    }

    method RaiseAt(t: Tracker, ghost i: nat)
      requires Linked() && Trackers() && i < |list| && t == list[i]
      modifies this`logs, t`show, t`update, t`hidden, t`displayed, t`log
      ensures Linked() && Trackers() && t.Settled()
      ensures logs == old(logs)[i := old(logs)[i] + Due(old(logs)[i], held[i], old(t.update))]
    {
      if t.show || t.update || t.hidden {
        t.Raise();
        logs := logs[i := t.log];
      } else {
        assert logs[i] + [] == logs[i];
      }
    }

    /** rc_client_raise_leaderboard_tracker_events. */
    method RaiseTrackerEvents()
      requires Core()
      modifies list, this`logs
      ensures Core() && TrackersSettled() && |logs| == |old(logs)|
      ensures forall i :: 0 <= i < |logs| ==> logs[i] == old(logs)[i] + Due(old(logs)[i], held[i], old(list[i].update))
    {
      hide Tally, Owners, Fitting, Alternates, Tracker.Life, Tracker.Settled, Due;
      ghost var i := 0;
      var tracker := head;
      while tracker != null
        invariant 0 <= i <= |list| && tracker == TrackerAt(list, i)
        invariant Core() && |logs| == |old(logs)|
        invariant forall m :: 0 <= m < i ==> list[m].Settled()
        invariant forall m :: 0 <= m < i ==> logs[m] == old(logs)[m] + Due(old(logs)[m], held[m], old(list[m].update))
        invariant forall m :: i <= m < |list| ==> logs[m] == old(logs)[m] && list[m].update == old(list[m].update)
        decreases |list| - i
      {
        RaiseOne(tracker, i);
        tracker, i := tracker.next, i + 1;
      }
    }

    /** rc_client_raise_leaderboard_events: at most one event for a leaderboard, in the order of the leaderboards. */
    method RaiseBoardEvents() returns (told: seq<Notice>)
      requires Core() && Boards()
      modifies boards`started, boards`failed, boards`submitted
      ensures Core() && Boards()
      ensures forall k :: 0 <= k < |boards| ==> !boards[k].Pending()
      ensures InOrder(told, |boards|)
      ensures forall k :: 0 <= k < |boards| ==>
                Tells(told, k, old(boards[k].started), old(boards[k].failed), old(boards[k].submitted))
    {
      hide Linked, Owners, Lives, Fitting, InOrder, Tells, Board.Consistent;
      told := [];
      NobodyTold();
      BoardsApart();
      var k := 0;
      while k < |boards|
        invariant 0 <= k <= |boards| && Core() && Boards() && InOrder(told, k)
        invariant forall l :: 0 <= l < k ==> !boards[l].Pending()
        invariant forall l :: 0 <= l < k ==>
                    Tells(told, l, old(boards[l].started), old(boards[l].failed), old(boards[l].submitted))
        invariant forall l :: k <= l < |boards| ==>
                    && boards[l].started == old(boards[l].started) && boards[l].failed == old(boards[l].failed)
                    && boards[l].submitted == old(boards[l].submitted)
      {
        ghost var before := told;
        told := told + NoticeOf(k, boards[k]);
        TellsMore(before, k, boards[k].started, boards[k].failed, boards[k].submitted);
        boards[k].started, boards[k].failed, boards[k].submitted := false, false, false;
        k := k + 1;
      }
    }

    lemma BoardsApart()
      requires Owners()
      ensures forall i, j :: 0 <= i < j < |boards| ==> boards[i] != boards[j]
    {
      forall i, j | 0 <= i < j < |boards| ensures boards[i] != boards[j] {
        assert boards[i].index == i && boards[j].index == j;
      }
    }

    /** The body of that loop up to the clearing of the bits. */
    function NoticeOf(k: nat, b: Board): seq<Notice>
      reads b
    {
      if b.failed then [HasFailed(k)]
      else if b.submitted then [WasSubmitted(k)]
      else if b.started then [HasStarted(k)]
      else []
    }

    /** A leaderboard with a pending event is announced. */
    ghost predicate BoardsAnnounced()
      reads this`boardsPending, boards`started, boards`failed, boards`submitted
    {
      forall k :: 0 <= k < |boards| ==> boards[k].Pending() ==> boardsPending
    }

    /** What holds after a change and before the raise. */
    ghost predicate Changing()
      reads this, list, boards
    {
      Core() && Boards() && BoardsAnnounced()
    }

    ghost predicate TrackersSettled()
      reads this`list, list
    {
      forall i {:trigger list[i]} :: 0 <= i < |list| ==> list[i].Settled()
    }

    lemma NothingPending()
      requires Core() && !trackersPending
      ensures TrackersSettled() && AllReported(logs, logs, held)
    {
      forall i | 0 <= i < |logs| ensures Reported(logs[i], logs[i], held[i]) {
        assert list[i].Life() && Announced(list[i], trackersPending);
        assert logs[i] + [] == logs[i];
      }
    }

    method RaisePendingTrackers()
      requires Core()
      modifies list, this`logs
      ensures Core() && TrackersSettled() && AllReported(old(logs), logs, held) && |logs| == |old(logs)|
    {
      if trackersPending {
        RaiseTrackerEvents();
      } else {
        NothingPending();
      }
    }

    method RaisePendingBoards() returns (told: seq<Notice>)
      requires Changing()
      modifies boards`started, boards`failed, boards`submitted
      ensures Core() && Boards()
      ensures forall k :: 0 <= k < |boards| ==> !boards[k].Pending()
      ensures InOrder(told, |boards|)
      ensures forall k :: 0 <= k < |boards| ==>
                Tells(told, k, old(boards[k].started), old(boards[k].failed), old(boards[k].submitted))
    {
      told := [];
      if boardsPending {
        told := RaiseBoardEvents();
      }
    }

    method ClearPending()
      requires Core() && TrackersSettled()
      modifies this`trackersPending, this`boardsPending
      ensures Core() && !trackersPending && !boardsPending
    {
      trackersPending, boardsPending := false, false;
    }

    /** The leaderboard part of rc_client_raise_pending_events. */
    method RaisePending() returns (told: seq<Notice>)
      requires Changing()
      modifies this`trackersPending, this`boardsPending, this`logs, list, boards`started, boards`failed,
        boards`submitted
      ensures Inv() && AllReported(old(logs), logs, held) && |logs| == |old(logs)|
      ensures InOrder(told, |boards|)
      ensures forall k :: 0 <= k < |boards| ==>
                Tells(told, k, old(boards[k].started), old(boards[k].failed), old(boards[k].submitted))
    {
      hide Linked, Owners, Lives, AllReported, InOrder, Tells;
      RaisePendingTrackers();
      told := RaisePendingBoards();
      ClearPending();
    }

    /** The same when no leaderboard has anything to tell. */
    method RaiseSilent() returns (told: seq<Notice>)
      requires Changing() && forall k :: 0 <= k < |boards| ==> !boards[k].Pending()
      modifies this`trackersPending, this`boardsPending, this`logs, list, boards`started, boards`failed,
        boards`submitted
      ensures Inv() && AllReported(old(logs), logs, held) && |logs| == |old(logs)| && told == []
    {
      hide Linked, Owners, Lives, AllReported, InOrder, Tells;
      label before:
      told := RaisePending();
      forall k | 0 <= k < |boards| ensures Tells(told, k, false, false, false) {
        assert !old@before(boards[k].Pending());
      }
      NothingTold(told, |boards|);
    }

    /** Everything but leaderboard k is as between rounds. */
    ghost predicate ChangingBut(k: nat)
      reads this, list, boards
    {
      && Core()
      && forall l {:trigger boards[l]} :: 0 <= l < |boards| && l != k ==>
          boards[l].Consistent() && (boards[l].Pending() ==> boardsPending)
    }

    /** The leaderboard has started: begin tracking. */
    method BeginTracking(k: nat)
      requires ChangingBut(k) && k < |boards| && owner[k] == -1
      modifies this, list, boards[k]
      ensures ChangingBut(k) && Grown() && boards[k].state == Tracking && boards[k].tracker != null
      ensures boards[k].attempt == old(boards[k].attempt) && boards[k].value == old(boards[k].value)
      ensures boards[k].tracker.raw == boards[k].value
      ensures boards[k].started && boards[k].failed == old(boards[k].failed)
      ensures boards[k].submitted == old(boards[k].submitted)
    {
      boards[k].state := Tracking;
      boards[k].started := true;
      ghost var j := Allocate(k);
    }

    /** The attempt was canceled: stop tracking. */
    method StopTracking(k: nat)
      requires ChangingBut(k) && k < |boards|
      modifies this`trackersPending, this`owner, this`held, NonNull(boards[k].tracker), boards[k]
      ensures ChangingBut(k) && boards[k].state == Active && boards[k].tracker == null
      ensures boards[k].attempt == old(boards[k].attempt) && boards[k].value == old(boards[k].value)
      ensures boards[k].failed && boards[k].started == old(boards[k].started)
      ensures boards[k].submitted == old(boards[k].submitted)
    {
      boards[k].state := Active;
      boards[k].failed := true;
      Release(k);
    }

    /** The attempt is complete: show the final value, for a moment if it has only just started. */
    method Submit(k: nat, before: Attempt)
      requires ChangingBut(k) && k < |boards| && (before != Started ==> owner[k] == -1)
      modifies this, list, boards[k]
      ensures ChangingBut(k) && Grown() && boards[k].state == Active && boards[k].tracker == null
      ensures boards[k].attempt == old(boards[k].attempt) && boards[k].value == old(boards[k].value)
      ensures boards[k].submitted && boards[k].started == old(boards[k].started)
      ensures boards[k].failed == old(boards[k].failed)
    {
      hide Linked, Lives;
      boards[k].state := Active;
      boards[k].submitted := true;
      ShowFinal(k, before);
      Release(k);
    }

    method ShowFinal(k: nat, before: Attempt)
      requires ChangingBut(k) && k < |boards| && (before != Started ==> owner[k] == -1)
      modifies this, list, {boards[k]}`tracker
      ensures ChangingBut(k) && Grown()
    {
      if before != Started {
        ghost var j := Allocate(k);
      } else {
        Refresh(k);
      }
    }

    /** One round of the loop of rc_client_do_frame_process_leaderboards. */
    method StepBoard(k: nat, now: Reading)
      requires Changing() && k < |boards|
      modifies this, list, boards[k]
      ensures Changing() && Grown()
      ensures var b := boards[k];
              if old(b.state == Inactive || b.state == Disabled) then unchanged(b) else
              && (b.started <==> old(b.started) || (old(b.attempt) != Started && b.attempt == Started))
              && (b.failed <==> old(b.failed) || (old(b.attempt) == Started && b.attempt == Canceled))
              && (b.submitted <==> old(b.submitted) || (old(b.attempt) != Triggered && b.attempt == Triggered))
              && (if b.attempt == Started then b.state == Tracking && b.tracker.raw == b.value
                else b.state == Active && b.tracker == null)
      ensures old(boards[k].state == Active || boards[k].state == Tracking) ==>
                Moves(old(boards[k].attempt), boards[k].attempt, now, boards[k].empty)
      ensures old(boards[k].state == Active || boards[k].state == Tracking) && boards[k].attempt == Started ==>
                boards[k].value == now.value
    {
      hide Linked, Lives, Moves, Fitting;
      var b := boards[k];
      if b.state == Inactive || b.state == Disabled {
        return;
      }
      var before := b.attempt;
      var after := Look(k, now);
      React(k, before, after);
      if b.started || b.failed || b.submitted {
        boardsPending := true;
      }
    }

    /** The evaluation of a leaderboard that is switched on. */
    method Look(k: nat, now: Reading) returns (after: Attempt)
      requires Changing() && k < |boards| && (boards[k].state == Active || boards[k].state == Tracking)
      modifies {boards[k]}`attempt, {boards[k]}`value
      ensures ChangingBut(k) && Moves(old(boards[k].attempt), boards[k].attempt, now, boards[k].empty)
      ensures after == Started || after == Canceled || after == Triggered ==> boards[k].attempt == after
      ensures after == Started <==> boards[k].attempt == Started
      ensures after == Canceled <==> old(boards[k].attempt) == Started && boards[k].attempt == Canceled
      ensures after == Triggered <==> old(boards[k].attempt) != Triggered && boards[k].attempt == Triggered
      ensures boards[k].attempt == Started ==> boards[k].value == now.value
    {
      after := boards[k].Evaluate(now);
    }

    /** Its switch over the new state. */
    method React(k: nat, before: Attempt, after: Attempt)
      requires ChangingBut(k) && k < |boards| && boards[k].state == (if before == Started then Tracking else Active)
      requires (boards[k].tracker != null <==> before == Started)
      requires after == Started || after == Canceled || after == Triggered ==> boards[k].attempt == after
      requires after == Canceled ==> before == Started
      requires after != Started && after != Canceled && after != Triggered ==>
                 before != Started && boards[k].attempt != Started
      modifies this, list, boards[k]
      ensures ChangingBut(k) && Grown() && boards[k].Consistent()
      ensures boards[k].state == (if after == Started then Tracking else Active)
      ensures boards[k].attempt == old(boards[k].attempt) && boards[k].value == old(boards[k].value)
      ensures (after == Started ==> boards[k].tracker.raw == boards[k].value)
      ensures boards[k].started == (old(boards[k].started) || (after == Started && before != Started))
      ensures boards[k].failed == (old(boards[k].failed) || after == Canceled)
      ensures boards[k].submitted == (old(boards[k].submitted) || after == Triggered)
    {
      if after == Started {
        if before != Started {
          BeginTracking(k);
        } else {
          Refresh(k);
        }
      } else if after == Canceled {
        if before != Canceled {
          StopTracking(k);
        }
      } else if after == Triggered {
        Submit(k, before);
      }
    }

    /** rc_client_do_frame_process_leaderboards. */
    method StepBoards(now: seq<Reading>)
      requires Changing() && |now| == |boards|
      requires forall k :: 0 <= k < |boards| ==> !boards[k].Pending()
      modifies this, list, boards
      ensures Changing() && Grown()
      ensures forall k :: 0 <= k < |boards| ==> Marked(boards[k], old(boards[k].attempt))
      ensures forall k :: 0 <= k < |boards| ==>
        Framed(boards[k].state, boards[k].attempt, old(boards[k].state), old(boards[k].attempt), now[k],
          boards[k].empty)
    {
      hide Linked, Lives, Fitting;
      var k := 0;
      while k < |boards|
        invariant Changing() && Grown() && k <= |boards|
        invariant forall l :: 0 <= l < k ==> Marked(boards[l], old(boards[l].attempt))
        invariant forall l :: k <= l < |boards| ==> !boards[l].Pending()
        invariant forall l :: 0 <= l < k ==>
          Framed(boards[l].state, boards[l].attempt, old(boards[l].state), old(boards[l].attempt), now[l],
            boards[l].empty)
        invariant forall l :: k <= l < |boards| ==>
                    boards[l].state == old(boards[l].state) && boards[l].attempt == old(boards[l].attempt)
      {
        StepBoard(k, now[k]);
        k := k + 1;
      }
    }

    /** The leaderboard part of rc_client_do_frame. */
    method DoFrame(allowed: bool, now: seq<Reading>) returns (told: seq<Notice>)
      requires Inv() && |now| == |boards|
      modifies this, list, boards
      ensures Inv() && Extended() && AllReported(old(logs), logs, held)
      ensures allowed ==> forall k :: 0 <= k < |boards| ==>
        Framed(boards[k].state, boards[k].attempt, old(boards[k].state), old(boards[k].attempt), now[k],
          boards[k].empty)
      ensures !allowed ==> forall k :: 0 <= k < |boards| ==>
        boards[k].state == old(boards[k].state) && boards[k].attempt == old(boards[k].attempt) &&
          boards[k].tracker == old(boards[k].tracker)
      ensures InOrder(told, |boards|)
      ensures forall k :: 0 <= k < |boards| ==>
        Tells(told, k, old(boards[k].attempt) != Started && boards[k].attempt == Started,
          old(boards[k].attempt) == Started && boards[k].attempt == Canceled,
          old(boards[k].attempt) != Triggered && boards[k].attempt == Triggered)
    {
      hide Linked, Owners, Lives, Fitting, AllReported, InOrder, Tells;
      ClearPending();
      if allowed {
        StepBoards(now);
      }
      ghost var grown := logs;
      told := RaisePending();
      ReportedSince(old(logs), grown, logs, held);
    }

    /** Release the tracker of a running leaderboard and leave it in `state`. */
    method Stop(k: nat, state: State)
      requires Changing() && k < |boards| && (state == Active || state == Inactive)
      modifies this`trackersPending, this`owner, this`held, NonNull(boards[k].tracker), {boards[k]}`state,
        {boards[k]}`attempt, {boards[k]}`tracker
      ensures Changing()
      ensures forall l :: 0 <= l < |boards| ==>
        if l == k then Stopped(boards[l].state, boards[l].attempt, old(boards[l].state), old(boards[l].attempt), state)
          else boards[l].state == old(boards[l].state) && boards[l].attempt == old(boards[l].attempt)
    {
      if boards[k].state == Active || boards[k].state == Tracking {
        StopRunning(k);
        Park(k, state);
      }
    }

    method StopRunning(k: nat)
      requires Changing() && k < |boards| && (boards[k].state == Active || boards[k].state == Tracking)
      modifies this`trackersPending, this`owner, this`held, NonNull(boards[k].tracker), {boards[k]}`tracker
      ensures ChangingBut(k) && boards[k].tracker == null && (boards[k].Pending() ==> boardsPending)
      ensures boards[k].state == Active ==> boards[k].attempt != Started
    {
      if boards[k].state == Tracking {
        Release(k);
      }
    }

    method Park(k: nat, state: State)
      requires ChangingBut(k) && k < |boards| && boards[k].tracker == null && (boards[k].Pending() ==> boardsPending)
      requires state == Active || state == Inactive
      modifies {boards[k]}`state, {boards[k]}`attempt
      ensures Changing() && boards[k].state == state
      ensures boards[k].attempt == if state == Active then Waiting else old(boards[k].attempt)
    {
      hide Linked, Owners, Lives, Fitting;
      boards[k].state := state;
      if state == Active {
        boards[k].attempt := Waiting;
      }
    }

    /** rc_client_subset_reset_leaderboards and rc_client_deactivate_leaderboards. */
    method StopAll(state: State)
      requires Changing() && (state == Active || state == Inactive)
      modifies this`trackersPending, this`owner, this`held, list, boards`state, boards`attempt, boards`tracker
      ensures Changing()
      ensures forall k :: 0 <= k < |boards| ==>
                Stopped(boards[k].state, boards[k].attempt, old(boards[k].state), old(boards[k].attempt), state)
    {
      var k := 0;
      while k < |boards|
        invariant Changing() && k <= |boards|
        invariant forall l :: 0 <= l < k ==>
                    Stopped(boards[l].state, boards[l].attempt, old(boards[l].state), old(boards[l].attempt), state)
        invariant forall l :: k <= l < |boards| ==>
                    boards[l].state == old(boards[l].state) && boards[l].attempt == old(boards[l].attempt)
      {
        Stop(k, state);
        k := k + 1;
      }
    }

    /** The leaderboard part of rc_client_reset, for a game that stays loaded. */
    method Reset() returns (told: seq<Notice>)
      requires Inv()
      modifies this, list, boards
      ensures Inv() && list == old(list) && AllReported(old(logs), logs, held) && told == []
      ensures forall k :: 0 <= k < |boards| ==>
                Stopped(boards[k].state, boards[k].attempt, old(boards[k].state), old(boards[k].attempt), Active)
    {
      hide Linked, Owners, Lives, AllReported;
      ClearPending();
      StopAll(Active);
      told := RaiseSilent();
    }

    /** Hardcore is switched off and leaderboards are not allowed without it. */
    method Deactivate() returns (told: seq<Notice>)
      requires Inv()
      modifies this, list, boards
      ensures Inv() && list == old(list) && AllReported(old(logs), logs, held) && told == []
      ensures forall k :: 0 <= k < |boards| ==>
                Stopped(boards[k].state, boards[k].attempt, old(boards[k].state), old(boards[k].attempt), Inactive)
    {
      hide Linked, Owners, Lives, AllReported;
      StopAll(Inactive);
      told := RaiseSilent();
    }

    /** rc_client_activate_leaderboards. Without permission a running leaderboard becomes inactive and keeps its
        tracker; the only such call is at the end of loading a game, when none runs. */
    method Activate(allowed: bool)
      requires Inv()
      modifies boards`state, boards`attempt
      ensures forall k :: 0 <= k < |boards| ==>
        Switched(boards[k].state, boards[k].attempt, old(boards[k].state), old(boards[k].attempt), allowed)
      ensures Inv() <==> allowed || forall k :: 0 <= k < |boards| ==> old(boards[k].state) != Tracking
    {
      hide Linked, Owners, Lives;
      var k := 0;
      while k < |boards|
        invariant Core() && k <= |boards|
        invariant forall l :: 0 <= l < k ==>
          Switched(boards[l].state, boards[l].attempt, old(boards[l].state), old(boards[l].attempt), allowed)
        invariant forall l :: 0 <= l < k ==> (boards[l].Consistent() <==> allowed || old(boards[l].state) != Tracking)
        invariant forall l :: k <= l < |boards| ==>
                    boards[l].state == old(boards[l].state) && boards[l].attempt == old(boards[l].attempt)
      {
        Switch(k, allowed);
        k := k + 1;
      }
    }

    method Switch(k: nat, allowed: bool)
      requires Core() && k < |boards| && boards[k].Consistent()
      modifies {boards[k]}`state, {boards[k]}`attempt
      ensures Core()
      ensures boards[k].Consistent() <==> allowed || old(boards[k].state) != Tracking
      ensures forall l :: 0 <= l < |boards| ==>
        if l == k
        then Switched(boards[l].state, boards[l].attempt, old(boards[l].state), old(boards[l].attempt), allowed)
        else boards[l].state == old(boards[l].state) && boards[l].attempt == old(boards[l].attempt)
    {
      if boards[k].state == Inactive {
        if allowed {
          boards[k].attempt := Waiting;
          boards[k].state := Active;
        }
      } else if boards[k].state != Disabled && !allowed {
        boards[k].state := Inactive;
      }
    }

    /** rc_client_invalidate_memref_leaderboards for one leaderboard: its tracker is not released. */
    method Invalidate(k: nat)
      requires Inv() && k < |boards|
      modifies boards[k]
      ensures Inv() && boards[k].state == Disabled && boards[k].tracker == old(boards[k].tracker)
      ensures boards[k].attempt == if old(boards[k].state) == Disabled then old(boards[k].attempt) else Unusable
    {
      if boards[k].state != Disabled {
        boards[k].state := Disabled;
        boards[k].attempt := Unusable;
      }
    }

    /** rc_client_subset_before_deserialize_progress: mark the running leaderboards. */
    method MarkRunning()
      requires Inv()
      modifies this`boardsPending, boards`failed
      ensures Changing()
      ensures forall k :: 0 <= k < |boards| ==> boards[k].Midway() && boards[k].failed == (boards[k].state == Tracking)
    {
      var k := 0;
      while k < |boards|
        invariant Changing() && k <= |boards|
        invariant forall l :: 0 <= l < |boards| ==> !boards[l].started && !boards[l].submitted
        invariant forall l :: 0 <= l < |boards| ==> boards[l].failed == (l < k && boards[l].state == Tracking)
      {
        Mark(k);
        k := k + 1;
      }
    }

    method Mark(k: nat)
      requires Changing() && k < |boards| && !boards[k].failed
      modifies this`boardsPending, {boards[k]}`failed
      ensures Changing()
      ensures forall l :: 0 <= l < |boards| ==>
        boards[l].failed == if l == k then boards[l].state == Tracking else old(boards[l].failed)
    {
      hide Game.Linked, Game.Lives, Game.Fitting;
      if boards[k].attempt == Started && boards[k].state == Tracking {
        boards[k].failed := true;
        boardsPending := true;
      }
    }

    /** The runtime loads saved progress: attempts end up in any state. */
    method LoadAttempts(saved: seq<Attempt>)
      requires Core() && |saved| == |boards|
      requires forall k :: 0 <= k < |boards| ==> boards[k].Midway() && boards[k].failed == (boards[k].state == Tracking)
      modifies boards`attempt
      ensures Core() && forall k :: 0 <= k < |boards| ==> boards[k].Midway() && boards[k].attempt == saved[k]
    {
      var k := 0;
      while k < |boards|
        invariant Core() && k <= |boards|
        invariant forall l :: 0 <= l < |boards| ==>
                    boards[l].Midway() && boards[l].failed == (boards[l].state == Tracking)
        invariant forall l :: 0 <= l < k ==> boards[l].attempt == saved[l]
      {
        boards[k].attempt := saved[k];
        k := k + 1;
      }
    }

    /** One round of rc_client_subset_after_deserialize_progress; `saved` is the restored value. */
    method Restore(k: nat, saved: int)
      requires Core() && k < |boards| && boards[k].Midway()
      modifies this, list, boards[k]
      ensures Core() && Grown() && boards[k].Consistent() && !boards[k].Pending()
      ensures boards[k].attempt == old(boards[k].attempt) && boardsPending == old(boardsPending)
      ensures var b := boards[k];
              if old(b.state == Inactive || b.state == Disabled) then b.state == old(b.state)
              else if b.attempt == Started then
                b.state == Tracking && b.value == b.tracker.raw == saved &&
                  (old(b.failed) ==> b.tracker == old(b.tracker))
              else b.state == Active
    {
      hide Linked, Lives;
      if boards[k].state == Active || boards[k].state == Tracking {
        if boards[k].attempt == Started {
          RestoreStarted(k, saved);
        } else if boards[k].failed {
          boards[k].failed := false;
          boards[k].state := Active;
          Release(k);
        }
      }
    }

    method RestoreStarted(k: nat, saved: int)
      requires Core() && k < |boards| && boards[k].Midway() && boards[k].attempt == Started
      requires boards[k].state == Active || boards[k].state == Tracking
      modifies this, list, boards[k]
      ensures Core() && Grown() && boards[k].Consistent() && !boards[k].Pending()
      ensures boards[k].attempt == Started && boards[k].state == Tracking && boardsPending == old(boardsPending)
      ensures boards[k].value == boards[k].tracker.raw == saved
      ensures (old(boards[k].failed) ==> boards[k].tracker == old(boards[k].tracker))
    {
      boards[k].value := saved;
      boards[k].state := Tracking;
      if boards[k].failed {
        boards[k].failed := false;
        Refresh(k);
      } else {
        ghost var j := Allocate(k);
      }
    }

    /** The first k leaderboards are restored, the others are still marked. */
    ghost predicate Restoring(k: nat)
      reads this, list, boards
    {
      && Core() && k <= |boards|
      && (forall l :: 0 <= l < k ==> boards[l].Consistent() && !boards[l].Pending())
      && (forall l :: k <= l < |boards| ==> boards[l].Midway())
    }

    method RestoreNext(k: nat, saved: int)
      requires Restoring(k) && k < |boards|
      modifies this, list, boards[k]
      ensures Restoring(k + 1) && Grown()
      ensures forall l :: 0 <= l < |boards| ==>
        if l == k then Restored(boards[l].state, boards[l].attempt, old(boards[l].state), old(boards[l].attempt))
        else boards[l].state == old(boards[l].state) && boards[l].attempt == old(boards[l].attempt)
    {
      Restore(k, saved);
    }

    method RestoreAll(values: seq<int>)
      requires |values| == |boards| && Core() && forall k :: 0 <= k < |boards| ==> boards[k].Midway()
      modifies this, list, boards
      ensures Core() && Boards() && Grown() && forall k :: 0 <= k < |boards| ==> !boards[k].Pending()
      ensures forall k :: 0 <= k < |boards| ==>
                Restored(boards[k].state, boards[k].attempt, old(boards[k].state), old(boards[k].attempt))
    {
      var k := 0;
      while k < |boards|
        invariant Restoring(k) && Grown()
        invariant forall l :: 0 <= l < k ==>
                    Restored(boards[l].state, boards[l].attempt, old(boards[l].state), old(boards[l].attempt))
        invariant forall l :: k <= l < |boards| ==>
                    boards[l].state == old(boards[l].state) && boards[l].attempt == old(boards[l].attempt)
      {
        RestoreNext(k, values[k]);
        k := k + 1;
      }
    }

    /** The leaderboard part of rc_client_deserialize_progress_sized; without data everything is reset. */
    method Deserialize(data: bool, saved: seq<Attempt>, values: seq<int>) returns (told: seq<Notice>)
      requires Inv() && |saved| == |values| == |boards|
      modifies this, list, boards
      ensures Inv() && Extended() && AllReported(old(logs), logs, held) && told == []
      ensures data ==> forall k :: 0 <= k < |boards| ==>
                Restored(boards[k].state, boards[k].attempt, old(boards[k].state), saved[k])
      ensures !data ==> forall k :: 0 <= k < |boards| ==>
                Stopped(boards[k].state, boards[k].attempt, old(boards[k].state), old(boards[k].attempt), Active)
    {
      hide Linked, Owners, Lives, AllReported;
      Reload(data, saved);
      RestoreAll(values);
      ghost var grown := logs;
      told := RaiseSilent();
      ReportedSince(old(logs), grown, logs, held);
    }

    /** Mark what is running, then load attempts or reset all. */
    method Reload(data: bool, saved: seq<Attempt>)
      requires Inv() && |saved| == |boards|
      modifies this, list, boards
      ensures Core() && list == old(list) && logs == old(logs) && forall k :: 0 <= k < |boards| ==> boards[k].Midway()
      ensures data ==> forall k :: 0 <= k < |boards| ==>
                boards[k].state == old(boards[k].state) && boards[k].attempt == saved[k]
      ensures !data ==> forall k :: 0 <= k < |boards| ==>
        Stopped(boards[k].state, boards[k].attempt, old(boards[k].state), old(boards[k].attempt), Active) &&
          (boards[k].state == Active ==> boards[k].attempt != Started)
    {
      hide Linked, Owners, Lives;
      ClearPending();
      MarkRunning();
      if data {
        LoadAttempts(saved);
      } else {
        ResetMarked();
      }
    }

    /** rc_client_reset_leaderboards between marking and restoring. */
    method ResetMarked()
      requires Changing()
      requires forall k :: 0 <= k < |boards| ==> boards[k].Midway() && boards[k].failed == (boards[k].state == Tracking)
      modifies this`trackersPending, this`owner, this`held, list, boards`state, boards`attempt, boards`tracker
      ensures Core() && forall k :: 0 <= k < |boards| ==> boards[k].Midway()
      ensures forall k :: 0 <= k < |boards| ==>
                Stopped(boards[k].state, boards[k].attempt, old(boards[k].state), old(boards[k].attempt), Active)
      ensures forall k :: 0 <= k < |boards| ==> boards[k].state == Active ==> boards[k].attempt != Started
    {
      StopAll(Active);
    }

    /** The leaderboard part of rc_client_unload_game: only running leaderboards release their tracker. */
    method Unload()
      requires Inv()
      modifies this, list, boards`tracker
      ensures Linked() && Owners() && Lives() && TrackersSettled() && list == old(list)
      ensures AllReported(old(logs), logs, held)
      ensures forall k :: 0 <= k < |boards| ==>
                boards[k].tracker == if boards[k].state == Disabled then old(boards[k].tracker) else null
      ensures (forall i :: 0 <= i < |list| ==> !Visible(list[i].log)) <==>
              (forall k :: 0 <= k < |boards| ==> old(boards[k].state == Disabled ==> boards[k].tracker == null))
    {
      hide Linked, Lives, AllReported;
      var k := 0;
      while k < |boards|
        invariant Core() && k <= |boards| && list == old(list) && logs == old(logs)
        invariant forall l :: 0 <= l < |boards| ==>
                    boards[l].tracker == if l < k && boards[l].state == Tracking then null else old(boards[l].tracker)
      {
        if boards[k].state == Tracking {
          Drop(k);
        }
        k := k + 1;
      }
      RaisePendingTrackers();
      NothingShownIff();
    }

    method Drop(k: nat)
      requires Core() && k < |boards|
      modifies this`trackersPending, this`owner, this`held, NonNull(boards[k].tracker), {boards[k]}`tracker
      ensures Core()
      ensures forall l :: 0 <= l < |boards| ==> boards[l].tracker == if l == k then null else old(boards[l].tracker)
    {
      Release(k);
    }

    /** A leaderboard whose address turns out invalid while its attempt runs leaves its tracker on screen for good. */
    method InvalidatedStaysShown(k: nat)
      requires Inv() && k < |boards| && boards[k].state == Tracking
      modifies this, list, boards
      ensures old(boards[k].tracker) in list && Visible(old(boards[k].tracker).log)
    {
      Invalidate(k);
      Unload();
      ShownWhileHeld(owner[k]);
    }

    /** Leaderboards that differ in the value definition or the format never hold the same tracker. */
    lemma DifferentNeverShare(k: nat, l: nat)
      requires Inv() && k < |boards| && l < |boards|
      requires boards[k].djb2 != boards[l].djb2 || boards[k].format != boards[l].format
      ensures boards[k].tracker == null || boards[k].tracker != boards[l].tracker
    {
    }

    lemma NothingShownIff()
      requires Linked() && Owners() && Lives() && TrackersSettled()
      ensures (forall i :: 0 <= i < |list| ==> !Visible(list[i].log)) <==>
              (forall k :: 0 <= k < |boards| ==> boards[k].tracker == null)
    {
      forall i | 0 <= i < |list|
        ensures Visible(list[i].log) <==> exists k :: 0 <= k < |boards| && boards[k].tracker == list[i]
      {
        ShownWhileHeld(i);
      }
      if k :| 0 <= k < |boards| && boards[k].tracker != null {
        assert boards[k].tracker == list[owner[k]];
      }
    }

    /** The reference count is the number of leaderboards whose tracker this is. */
    lemma CountIsHolders(i: nat)
      requires Linked() && Owners() && Lives() && i < |list|
      ensures list[i].count == |set k | 0 <= k < |boards| && boards[k].tracker == list[i]|
    {
      TallyAt(owner, held, |held|, i);
      CountIsPlaces(owner, i);
      forall k | 0 <= k < |boards| ensures owner[k] == i <==> boards[k].tracker == list[i] {
        if boards[k].tracker == list[i] {
          assert list[owner[k]].id == list[i].id;
        }
      }
      assert (set k | 0 <= k < |owner| && owner[k] == i) == (set k | 0 <= k < |boards| && boards[k].tracker == list[i]);
    }

    /** A tracker is on screen exactly while some leaderboard holds it. */
    lemma ShownWhileHeld(i: nat)
      requires Owners() && Lives() && TrackersSettled() && i < |list|
      requires forall j {:trigger list[j]} :: 0 <= j < |list| ==> list[j].id == j + 1
      ensures Visible(list[i].log) <==> exists k :: 0 <= k < |boards| && boards[k].tracker == list[i]
    {
      TallyAt(owner, held, |held|, i);
      CountPositive(owner, i);
      if k :| 0 <= k < |owner| && owner[k] == i {
        assert boards[k].tracker == list[i];
      }
      if k :| 0 <= k < |boards| && boards[k].tracker == list[i] {
        assert list[owner[k]].id == list[i].id;
      }
    }
  }

  /** The transitions of one evaluation. A leaderboard that is not running waits until its start condition is false,
      starts when that becomes true without the cancel condition, and then runs until it is canceled or complete; one
      that is complete in the frame it starts is not announced, and one without a start condition never starts. */
  predicate Moves(before: Attempt, after: Attempt, now: Reading, empty: bool) {
    match before
    case Idle | Unusable => after == before
    case Waiting | Canceled | Triggered => after == if now.start then before else Ready
    case Ready =>
      && (after == Started <==> now.start && !now.cancel && !now.submit && !empty)
      && (after == Triggered <==> now.start && !now.cancel && now.submit)
      && (after != Started && after != Triggered ==> after == Ready)
    case Started =>
      && (after == Canceled <==> now.cancel)
      && (after == Triggered <==> now.submit && !now.cancel)
      && (after != Canceled && after != Triggered ==> after == Started)
  }

  /** A frame: an attempt moves on, and the leaderboard is tracked exactly while it runs. */
  predicate Framed(state: State, attempt: Attempt, state0: State, attempt0: Attempt, now: Reading, empty: bool) {
    if state0 == Inactive || state0 == Disabled then state == state0 && attempt == attempt0
    else Moves(attempt0, attempt, now, empty) && state == if attempt == Started then Tracking else Active
  }

  /** The bits set by a frame that found none. */
  ghost predicate Marked(b: Board, attempt0: Attempt)
    reads b
  {
    && (b.started <==> attempt0 != Started && b.attempt == Started)
    && (b.failed <==> attempt0 == Started && b.attempt == Canceled)
    && (b.submitted <==> attempt0 != Triggered && b.attempt == Triggered)
  }

  /** After loading, a leaderboard is tracked exactly while the loaded attempt runs. */
  predicate Restored(state: State, attempt: Attempt, state0: State, loaded: Attempt) {
    attempt == loaded && state == if state0 == Inactive || state0 == Disabled then state0
      else if attempt == Started then Tracking else Active
  }

  /** With permission an inactive leaderboard starts waiting, without it an active one becomes inactive. */
  predicate Switched(state: State, attempt: Attempt, state0: State, attempt0: Attempt, allowed: bool) {
    if state0 == Inactive && allowed then state == Active && attempt == Waiting
    else attempt == attempt0 && state == if state0 == Disabled || allowed then state0 else Inactive
  }

  /** A leaderboard that was running or ready ends up in `target`, waiting anew if that is active; any other
      stays as it was. */
  predicate Stopped(state: State, attempt: Attempt, state0: State, attempt0: Attempt, target: State) {
    if state0 == Inactive || state0 == Disabled then state == state0 && attempt == attempt0
    else state == target && attempt == if target == Active then Waiting else attempt0
  }

  ghost function NonNull(t: Tracker?): set<Tracker> {
    if t == null then {} else {t}
  }
}

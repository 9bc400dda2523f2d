/** The two-thread HTTP pipeline of ra_client.cpp: callers queue jobs, a worker runs them, and the
    RetroAchievements thread delivers the answers. Each step is one critical section or one call. */
module HttpPipeline {
  import opened Wrappers

  /** Jobs are numbered as they are made. */
  type Job = nat

  /** A job the draining thread has taken: its callback has been called or not yet. */
  datatype Taken = Nothing | ToCall(job: Job) | Called(job: Job)

  datatype State = State(
    made: nat,                    // how many jobs have been made
    calling: set<Job>,            // calls that have seen to the worker and not yet queued their job
    started: bool,                // g_http_worker_started
    workers: seq<Option<Job>>,    // each worker thread with the job it is running
    pending: seq<Job>,            // g_http_pending
    done: seq<Job>,               // g_http_done
    taken: Taken,                 // the draining thread
    submitted: seq<Job>,          // the jobs in the order they were queued
    delivered: seq<Job>)          // the jobs in the order their callbacks ran

  ghost predicate Init(s: State) {
    s == State(0, {}, false, [], [], [], Nothing, [], [])
  }

  /** client_server_call up to the start of the worker; a compare-and-swap lets the first call start it.
      Callbacks make such calls too. */
  ghost predicate Call(s: State, s': State) {
    s' == s.(made := s.made + 1, calling := s.calling + {s.made}, started := true,
             workers := if s.started then s.workers else s.workers + [None])
  }

  /** client_server_call queues its job. */
  ghost predicate Queue(s: State, s': State) {
    exists j: Job :: j in s.calling &&
      s' == s.(calling := s.calling - {j}, pending := s.pending + [j], submitted := s.submitted + [j])
  }

  /** A worker takes a job. */
  ghost predicate Take(s: State, s': State) {
    exists w: nat :: w < |s.workers| && s.workers[w] == None && s.pending != [] &&
      s' == s.(workers := s.workers[w := Some(s.pending[0])], pending := s.pending[1..])
  }

  /** A worker has run its job. */
  ghost predicate Finish(s: State, s': State) {
    exists w: nat :: w < |s.workers| && s.workers[w].Some? &&
      s' == s.(workers := s.workers[w := None], done := s.done + [s.workers[w].value])
  }

  /** drain_http_done takes an answer, calls its callback, and deletes the job. */
  ghost predicate Drain(s: State, s': State) {
    match s.taken
    case Nothing => s.done != [] && s' == s.(taken := ToCall(s.done[0]), done := s.done[1..])
    case ToCall(j) => s' == s.(taken := Called(j), delivered := s.delivered + [j])
    case Called(_) => s' == s.(taken := Nothing)
  }

  ghost predicate Step(s: State, s': State) {
    Call(s, s') || Queue(s, s') || Take(s, s') || Finish(s, s') || Drain(s, s')
  }

  function AtHand(t: Taken): seq<Job> {
    if t.ToCall? then [t.job] else []
  }

  function Running(workers: seq<Option<Job>>): seq<Job> {
    if workers != [] && workers[0].Some? then [workers[0].value] else []
  }

  /** Every job made is in exactly one place, those queued in order; one worker, from the first job on. */
  ghost predicate Inv(s: State) {
    && |s.workers| == (if s.started then 1 else 0) && (s.made > 0 ==> s.started)
    && |s.calling| + |s.submitted| == s.made
    && (forall j :: j in s.calling ==> j < s.made && j !in s.submitted)
    && (forall j :: j in s.submitted ==> j < s.made)
    && (forall a, b :: 0 <= a < b < |s.submitted| ==> s.submitted[a] != s.submitted[b])
    && s.submitted == s.delivered + (AtHand(s.taken) + (s.done + (Running(s.workers) + s.pending)))
  }

  lemma StepKeepsInv(s: State, s': State)
    requires Inv(s) && Step(s, s')
    ensures Inv(s')
  {
    if Call(s, s') {
      CallKeeps(s, s');
    } else if Queue(s, s') {
      QueueKeeps(s, s');
    } else if Take(s, s') {
      TakeKeeps(s, s');
    } else if Finish(s, s') {
      FinishKeeps(s, s');
    } else {
      DrainKeeps(s, s');
    }
  }

  lemma CallKeeps(s: State, s': State)
    requires Inv(s) && Call(s, s')
    ensures Inv(s')
  {
  }

  lemma QueueKeeps(s: State, s': State)
    requires Inv(s) && Queue(s, s')
    ensures Inv(s')
  {
    var j: Job :| j in s.calling &&
      s' == s.(calling := s.calling - {j}, pending := s.pending + [j], submitted := s.submitted + [j]);
    assert s.submitted + [j] == s.delivered + (AtHand(s.taken) + (s.done + (Running(s.workers) + (s.pending + [j]))));
  }

  lemma TakeKeeps(s: State, s': State)
    requires Inv(s) && Take(s, s')
    ensures Inv(s')
  {
    assert s.workers[0] == None;
    assert [s.pending[0]] + s.pending[1..] == s.pending;
    assert Running(s'.workers) + s'.pending == Running(s.workers) + s.pending;
  }

  lemma FinishKeeps(s: State, s': State)
    requires Inv(s) && Finish(s, s')
    ensures Inv(s')
  {
    var j := s.workers[0].value;
    assert s'.done == s.done + [j] && Running(s'.workers) == [];
    assert s'.done + (Running(s'.workers) + s.pending) == s.done + (Running(s.workers) + s.pending);
  }

  lemma DrainKeeps(s: State, s': State)
    requires Inv(s) && Drain(s, s')
    ensures Inv(s')
  {
    var rest := Running(s.workers) + s.pending;
    match s.taken
    case Nothing =>
      assert [s.done[0]] + (s.done[1..] + rest) == [] + (s.done + rest);
    case ToCall(j) =>
      assert (s.delivered + [j]) + ([] + (s.done + rest)) == s.delivered + ([j] + (s.done + rest));
    case Called(_) =>
  }

  ghost predicate Run(states: seq<State>) {
    states != [] && Init(states[0]) && forall n :: 0 <= n < |states| - 1 ==> Step(states[n], states[n + 1])
  }

  lemma {:induction false} RunKeepsInv(states: seq<State>, n: nat)
    requires Run(states) && n < |states|
    ensures Inv(states[n])
  {
    if n > 0 {
      RunKeepsInv(states, n - 1);
      StepKeepsInv(states[n - 1], states[n]);
    } else {
      var none: seq<Job> := [];
      assert none + (none + (none + (none + none))) == none;
    }
  }

  /** In every run, at every step: callbacks have run in the order the jobs were queued, each for a job of its
      own; and when nothing is under way they have run for all of them. */
  lemma DeliveredInOrder(states: seq<State>, n: nat)
    requires Run(states) && n < |states|
    ensures var s := states[n];
            && s.delivered <= s.submitted
            && (s.pending == [] && s.done == [] && Running(s.workers) == [] && s.taken == Nothing ==>
                s.delivered == s.submitted)
  {
    RunKeepsInv(states, n);
    var s := states[n];
    var none: seq<Job> := [];
    assert s.delivered + (none + (none + (none + none))) == s.delivered;
  }

  /** No callback runs twice. */
  lemma DeliveredOnce(states: seq<State>, n: nat, i: nat, k: nat)
    requires Run(states) && n < |states| && i < k < |states[n].delivered|
    ensures states[n].delivered[i] != states[n].delivered[k]
  {
    RunKeepsInv(states, n);
    DeliveredInOrder(states, n);
    var s := states[n];
    assert s.delivered[i] == s.submitted[i] && s.delivered[k] == s.submitted[k];
  }

  // ---------------------------------------------------------------- everything is delivered

  /** A step that is not a new call. */
  ghost predicate Quiet(s: State, s': State) {
    Queue(s, s') || Take(s, s') || Finish(s, s') || Drain(s, s')
  }

  /** The steps that the jobs under way still need. */
  function Work(s: State): nat {
    6 * |s.calling| + 5 * |s.pending| + 4 * |Running(s.workers)| + 3 * |s.done| +
    match s.taken case Nothing => 0 case ToCall(_) => 2 case Called(_) => 1
  }

  lemma QuietStepWorks(s: State, s': State)
    requires Inv(s) && Quiet(s, s')
    ensures Work(s) == Work(s') + 1
  {
  }

  lemma QuietStep(s: State) returns (s': State)
    requires Inv(s) && Work(s) > 0
    ensures Quiet(s, s')
  {
    if s.taken != Nothing || s.done != [] {
      s' := match s.taken
        case Nothing => s.(taken := ToCall(s.done[0]), done := s.done[1..])
        case ToCall(j) => s.(taken := Called(j), delivered := s.delivered + [j])
        case Called(_) => s.(taken := Nothing);
    } else if Running(s.workers) != [] {
      s' := s.(workers := s.workers[0 := None], done := s.done + [s.workers[0].value]);
      assert Finish(s, s');
    } else if s.pending != [] {
      assert |s.submitted| >= |s.pending|;
      s' := s.(workers := s.workers[0 := Some(s.pending[0])], pending := s.pending[1..]);
      assert Take(s, s');
    } else {
      var j :| j in s.calling;
      s' := s.(calling := s.calling - {j}, pending := s.pending + [j], submitted := s.submitted + [j]);
      assert Queue(s, s');
    }
  }

  /** From any step of any run on: while no new call comes, the pipeline goes on for exactly as many steps as its jobs
      need, whoever moves. It stops only when the callback of every job that was ever made has run. */
  lemma {:induction false} EverythingIsDelivered(states: seq<State>, n: nat, m: nat)
    requires Run(states) && n <= m < |states|
    requires forall k :: n <= k < m ==> Quiet(states[k], states[k + 1])
    ensures m - n == Work(states[n]) - Work(states[m])
    ensures (exists s' :: Quiet(states[m], s')) <==> m - n < Work(states[n])
    ensures m - n == Work(states[n]) ==>
              var s := states[m]; s.delivered == s.submitted && s.calling == {} && |s.delivered| == s.made
    decreases m - n
  {
    hide Quiet, Inv, Work, Run;
    if n < m {
      EverythingIsDelivered(states, n, m - 1);
      RunKeepsInv(states, m - 1);
      QuietStepWorks(states[m - 1], states[m]);
    }
    RunKeepsInv(states, m);
    AtRest(states[m]);
  }

  lemma AtRest(s: State)
    requires Inv(s)
    ensures (exists s' :: Quiet(s, s')) <==> Work(s) > 0
    ensures Work(s) == 0 ==> s.delivered == s.submitted && s.calling == {} && |s.delivered| == s.made
  {
    if Work(s) > 0 {
      var s' := QuietStep(s);
    } else {
      var none: seq<Job> := [];
      assert s.delivered + (none + (none + (none + none))) == s.delivered;
      forall s' ensures !Quiet(s, s') {
        if Quiet(s, s') {
          QuietStepWorks(s, s');
        }
      }
    }
  }
}

/** The queue of scheduled callbacks of rc_client.c: a singly linked list sorted by due time,
    edited in place by schedule and reschedule. */
module TimerQueue {

  datatype Kind = HideProgress | Ping(game: nat) | Retry | Activate(game: nat)

  /** rc_client_scheduled_callback_data_t; `kind` stands for its function pointer and related_id,
      `retries` for the retry_count of the request data a Retry points to. */
  class Timer {
    var when: nat
    var next: Timer?
    var retries: nat
    const kind: Kind

    constructor (kind: Kind, when: nat)
      ensures this.kind == kind && this.when == when && this.next == null && this.retries == 0
    {
      this.kind := kind;
      this.when := when;
      this.next := null;
      this.retries := 0;
    }
  }

  // ---------------------------------------------------------------- due times as values

  predicate Sorted(ws: seq<nat>) {
    forall i, j :: 0 <= i < j < |ws| ==> ws[i] <= ws[j]
  }

  /** Where an entry due at w goes: behind every entry due no later, in front of the next one. */
  ghost predicate IsSlot(ws: seq<nat>, w: nat, k: nat) {
    k <= |ws| && (forall i :: 0 <= i < k ==> ws[i] <= w) && (k < |ws| ==> w < ws[k])
  }

  lemma {:induction false} SlotExists(ws: seq<nat>, w: nat, k: nat)
    requires k <= |ws| && forall i :: 0 <= i < k ==> ws[i] <= w
    ensures exists j :: IsSlot(ws, w, j)
    decreases |ws| - k
  {
    if k < |ws| && ws[k] <= w {
      SlotExists(ws, w, k + 1);
    } else {
      assert IsSlot(ws, w, k);
    }
  }

  ghost function Slot(ws: seq<nat>, w: nat): (k: nat)
    ensures IsSlot(ws, w, k)
  {
    SlotExists(ws, w, 0);
    var k: nat :| IsSlot(ws, w, k);
    k
  }

  lemma SlotUnique(ws: seq<nat>, w: nat, k: nat)
    requires IsSlot(ws, w, k)
    ensures Slot(ws, w) == k
  {
  }

  function Insert<T>(s: seq<T>, k: nat, x: T): (r: seq<T>)
    requires k <= |s|
    ensures |r| == |s| + 1 && r[k] == x
    ensures forall i :: 0 <= i < k ==> r[i] == s[i]
    ensures forall i :: k < i <= |s| ==> r[i] == s[i - 1]
  {
    seq(|s| + 1, i requires 0 <= i <= |s| => if i < k then s[i] else if i == k then x else s[i - 1])
  }

  function Remove<T>(s: seq<T>, k: nat): (r: seq<T>)
    requires k < |s|
    ensures |r| == |s| - 1
    ensures forall i :: 0 <= i < k ==> r[i] == s[i]
    ensures forall i :: k <= i < |s| - 1 ==> r[i] == s[i + 1]
  {
    seq(|s| - 1, i requires 0 <= i < |s| - 1 => if i < k then s[i] else s[i + 1])
  }

  lemma InsertSorted(ws: seq<nat>, w: nat, k: nat)
    requires Sorted(ws) && IsSlot(ws, w, k)
    ensures Sorted(Insert(ws, k, w))
  {
    var r := Insert(ws, k, w);
    forall i, j | 0 <= i < j < |r| ensures r[i] <= r[j] {
      if j > k {
        BeyondSlot(ws, w, k, j - 1);
      }
    }
  }

  lemma BeyondSlot(ws: seq<nat>, w: nat, k: nat, j: nat)
    requires Sorted(ws) && IsSlot(ws, w, k) && k <= j < |ws|
    ensures w < ws[j]
  {
  }

  /** Inserting at the slot keeps the order and puts the entry behind all its equals. */
  lemma InsertKeepsOrder(ws: seq<nat>, w: nat)
    requires Sorted(ws)
    ensures Sorted(Insert(ws, Slot(ws, w), w))
    ensures forall i :: Slot(ws, w) <= i < |ws| ==> w < ws[i]
  {
    var k := Slot(ws, w);
    InsertSorted(ws, w, k);
    forall i | k <= i < |ws| ensures w < ws[i] {
      BeyondSlot(ws, w, k, i);
    }
  }

  // ---------------------------------------------------------------- chains of nodes

  ghost predicate Distinct(s: seq<Timer>) {
    forall i, j :: 0 <= i < j < |s| ==> s[i] != s[j]
  }

  /** The i-th node, null past the end. */
  function NodeAt(s: seq<Timer>, i: nat): Timer? {
    if i < |s| then s[i] else null
  }

  /** Following `next` from head visits exactly s and ends at null. */
  ghost predicate Chain(head: Timer?, s: seq<Timer>)
    reads s
  {
    && head == NodeAt(s, 0)
    && forall i {:trigger s[i].next} :: 0 <= i < |s| ==> s[i].next == NodeAt(s, i + 1)
  }

  /** The due times of the nodes. */
  ghost predicate Timed(s: seq<Timer>, ws: seq<nat>)
    reads s
  {
    |ws| == |s| && forall i :: 0 <= i < |s| ==> s[i].when == ws[i]
  }

  lemma TimedInserted(q: seq<Timer>, ws: seq<nat>, i: nat, t: Timer)
    requires Timed(q, ws) && i <= |q|
    ensures Timed(Insert(q, i, t), Insert(ws, i, t.when))
  {
    forall k | 0 <= k <= |q| ensures Insert(q, i, t)[k].when == Insert(ws, i, t.when)[k] {
      if k > i {
        assert Insert(q, i, t)[k] == q[k - 1];
      }
    }
  }

  /** A chain that ends never meets a node twice. */
  lemma {:induction false} ChainDistinct(head: Timer?, s: seq<Timer>)
    requires Chain(head, s)
    ensures Distinct(s)
  {
    forall i, j | 0 <= i < j < |s| ensures s[i] != s[j] {
      if s[i] == s[j] {
        ChainRepeats(head, s, i, j, |s| - j);
        assert false;
      }
    }
  }

  lemma {:induction false} ChainRepeats(head: Timer?, s: seq<Timer>, i: nat, j: nat, k: nat)
    requires Chain(head, s) && i <= |s| && j + k <= |s| && i < j && NodeAt(s, i) == NodeAt(s, j)
    ensures NodeAt(s, i + k) == NodeAt(s, j + k)
    decreases k
  {
    if k > 0 {
      assert s[i].next == NodeAt(s, i + 1) && s[j].next == NodeAt(s, j + 1);
      ChainRepeats(head, s, i + 1, j + 1, k - 1);
    }
  }

  /** One head leads along one chain only. */
  lemma ChainUnique(head: Timer?, s: seq<Timer>, t: seq<Timer>)
    requires Chain(head, s) && Chain(head, t)
    ensures s == t
  {
    var k := if |s| < |t| then |s| else |t|;
    forall i | 0 <= i <= k ensures NodeAt(s, i) == NodeAt(t, i) {
      ChainSame(head, s, t, i);
    }
    assert NodeAt(s, k) == NodeAt(t, k);
    assert |s| == |t|;
    forall i | 0 <= i < |s| ensures s[i] == t[i] {
      assert NodeAt(s, i) == NodeAt(t, i);
    }
  }

  lemma {:induction false} ChainSame(head: Timer?, s: seq<Timer>, t: seq<Timer>, k: nat)
    requires Chain(head, s) && Chain(head, t) && k <= |s| && k <= |t|
    ensures NodeAt(s, k) == NodeAt(t, k)
  {
    if k > 0 {
      ChainSame(head, s, t, k - 1);
      assert s[k - 1].next == NodeAt(s, k) && t[k - 1].next == NodeAt(t, k);
    }
  }

  /** Pointers that lead from head along `path`. */
  ghost predicate Leads(head: Timer?, path: seq<Timer>)
    reads path
  {
    path != [] && head == path[0] && forall i :: 0 <= i < |path| - 1 ==> path[i].next == path[i + 1]
  }

  lemma {:induction false} LeadsIntoChain(head: Timer?, path: seq<Timer>, s: seq<Timer>, k: nat)
    requires Leads(head, path) && Chain(head, s) && k < |path|
    ensures NodeAt(s, k) == path[k]
  {
    if k > 0 {
      LeadsIntoChain(head, path, s, k - 1);
      assert s[k - 1].next == NodeAt(s, k);
    }
  }

  /** A walk that comes back to one of its nodes: no ending chain starts at head. */
  lemma CycleHasNoEnd(head: Timer?, path: seq<Timer>, i: nat)
    requires Leads(head, path) && i < |path| - 1 && path[i] == path[|path| - 1]
    ensures forall s :: !Chain(head, s)
  {
    forall s ensures !Chain(head, s) {
      if Chain(head, s) {
        LeadsIntoChain(head, path, s, i);
        LeadsIntoChain(head, path, s, |path| - 1);
        ChainDistinct(head, s);
        assert false;
      }
    }
  }

  /** The pointers of q with t linked in behind its first i nodes. */
  ghost predicate Spliced(head: Timer?, q: seq<Timer>, i: nat, t: Timer)
    reads t, q
  {
    && i <= |q|
    && t.next == NodeAt(q, i)
    && head == (if i == 0 then t else NodeAt(q, 0))
    && (i > 0 ==> q[i - 1].next == t)
    && forall m :: 0 <= m < |q| && m != i - 1 && q[m] != t ==> q[m].next == NodeAt(q, m + 1)
  }

  lemma SplicedChain(head: Timer?, q: seq<Timer>, i: nat, t: Timer)
    requires Spliced(head, q, i, t) && t !in q
    ensures Chain(head, Insert(q, i, t))
  {
    var r := Insert(q, i, t);
    forall m | 0 <= m < |r| ensures r[m].next == NodeAt(r, m + 1) {
      if m < i {
        assert r[m] == q[m];
      } else if m > i {
        assert r[m] == q[m - 1];
      }
    }
  }

  lemma SplicedCycle(head: Timer?, q: seq<Timer>, i: nat, t: Timer, p: nat)
    requires Spliced(head, q, i, t) && i < p < |q| && q[p] == t && t !in q[..p]
    ensures forall s :: !Chain(head, s)
  {
    var path := q[..i] + [t] + q[i..p] + [t];
    forall m | 0 <= m < |path| - 1 ensures path[m].next == path[m + 1] {
      if m < i {
        assert path[m] == q[m] && q[m] in q[..p];
      } else if m > i {
        assert path[m] == q[m - 1] && q[m - 1] in q[..p];
      }
    }
    CycleHasNoEnd(head, path, i);
  }

  lemma UnlinkedChain(head: Timer?, q: seq<Timer>, i: nat)
    requires i < |q|
    requires head == (if i == 0 then NodeAt(q, 1) else NodeAt(q, 0))
    requires i > 0 ==> q[i - 1].next == NodeAt(q, i + 1)
    requires forall m :: 0 <= m < |q| && m != i - 1 && m != i ==> q[m].next == NodeAt(q, m + 1)
    ensures Chain(head, Remove(q, i))
  {
    var r := Remove(q, i);
    forall m | 0 <= m < |r| ensures r[m].next == NodeAt(r, m + 1) {
      if m < i {
        assert r[m] == q[m];
      } else {
        assert r[m] == q[m + 1];
      }
    }
  }

  // ---------------------------------------------------------------- rescheduling, as values

  /** The queue without t. */
  ghost function Without(q: seq<Timer>, t: Timer): (r: seq<Timer>)
    ensures forall n :: n in r ==> n in q
    ensures Distinct(q) ==> t !in r
  {
    if t in q then Remove(q, IndexOf(q, t)) else q
  }

  ghost predicate IsIndex(q: seq<Timer>, t: Timer, i: nat) {
    i < |q| && q[i] == t && forall j :: 0 <= j < i ==> q[j] != t
  }

  lemma {:induction false} IndexExists(q: seq<Timer>, t: Timer, k: nat)
    requires t in q && k < |q| && forall j :: 0 <= j < k ==> q[j] != t
    ensures exists i :: IsIndex(q, t, i)
    decreases |q| - k
  {
    if q[k] == t {
      assert IsIndex(q, t, k);
    } else {
      IndexExists(q, t, k + 1);
    }
  }

  ghost function IndexOf(q: seq<Timer>, t: Timer): (i: nat)
    requires t in q
    ensures IsIndex(q, t, i)
  {
    IndexExists(q, t, 0);
    var i: nat :| IsIndex(q, t, i);
    i
  }

  ghost function BaseWhens(q: seq<Timer>, ws: seq<nat>, t: Timer): (bs: seq<nat>)
    requires |ws| == |q|
    ensures |bs| == |Without(q, t)|
  {
    if t in q then Remove(ws, IndexOf(q, t)) else ws
  }

  lemma BaseWhensRead(q: seq<Timer>, ws: seq<nat>, t: Timer)
    requires |ws| == |q| && Distinct(q) && forall k :: 0 <= k < |q| && q[k] != t ==> q[k].when == ws[k]
    ensures Timed(Without(q, t), BaseWhens(q, ws, t))
  {
    var base, bs := Without(q, t), BaseWhens(q, ws, t);
    forall k | 0 <= k < |base| ensures base[k].when == bs[k] {
      if t in q {
        assert base[k] == if k < IndexOf(q, t) then q[k] else q[k + 1];
      }
    }
  }

  lemma StillQueued(q: seq<Timer>, t: Timer, i: nat)
    requires t in q && i <= |q| && (i < |q| ==> q[i] != t) && forall j :: 0 <= j < i ==> q[j] != t
    ensures i < IndexOf(q, t)
  {
  }

  /** What reschedule relies on: a queued entry is not moved in front of an earlier one, and an
      entry that is not queued is not asked to be unscheduled. */
  ghost predicate SafeMove(q: seq<Timer>, ws: seq<nat>, t: Timer, when: nat)
    requires |ws| == |q|
  {
    if t in q then when == 0 || forall i :: 0 <= i < IndexOf(q, t) ==> ws[i] <= when
    else when != 0
  }

  ghost predicate InOrder(s: seq<Timer>)
    reads s
  {
    forall i, j :: 0 <= i < j < |s| ==> s[i].when <= s[j].when
  }

  /** The entry is queued, once and at its place, or not at all for time 0. */
  ghost predicate ScheduledAt(head: Timer?, s: seq<Timer>, t: Timer, when: nat)
    reads s
  {
    Chain(head, s) && InOrder(s) && (t in s <==> when != 0)
  }

  /** The queue after a safe move: t taken out and, unless unscheduled, put behind all entries due no later. */
  ghost function Moved(q: seq<Timer>, ws: seq<nat>, t: Timer, when: nat): seq<Timer>
    requires |ws| == |q|
  {
    var base := Without(q, t);
    if when == 0 then base else Insert(base, Slot(BaseWhens(q, ws, t), when), t)
  }

  ghost function MovedWhens(q: seq<Timer>, ws: seq<nat>, t: Timer, when: nat): seq<nat>
    requires |ws| == |q|
  {
    var bs := BaseWhens(q, ws, t);
    if when == 0 then bs else Insert(bs, Slot(bs, when), when)
  }

  /** The nodes as a set. */
  ghost function Elems(q: seq<Timer>): set<Timer> {
    if q == [] then {} else {q[0]} + Elems(q[1..])
  }

  lemma {:induction false} ElemsAre(q: seq<Timer>, n: Timer)
    ensures n in Elems(q) <==> n in q
  {
    if q != [] {
      ElemsAre(q[1..], n);
    }
  }

  lemma ElemsAll(q: seq<Timer>)
    ensures forall n :: n in q <==> n in Elems(q)
  {
    forall n ensures n in q <==> n in Elems(q) {
      ElemsAre(q, n);
    }
  }

  lemma {:induction false} ElemsInsert(q: seq<Timer>, k: nat, t: Timer)
    requires k <= |q|
    ensures Elems(Insert(q, k, t)) == Elems(q) + {t}
    decreases k
  {
    var r := Insert(q, k, t);
    if k == 0 {
      assert r[1..] == q;
    } else {
      InsertBehind(q, k, t);
      ElemsInsert(q[1..], k - 1, t);
    }
  }

  lemma InsertBehind(q: seq<Timer>, k: nat, t: Timer)
    requires 0 < k <= |q|
    ensures Insert(q, k, t)[1..] == Insert(q[1..], k - 1, t)
  {
    var a, b := Insert(q, k, t)[1..], Insert(q[1..], k - 1, t);
    forall i | 0 <= i < |q| ensures a[i] == b[i] {
    }
  }

  lemma ElemsRemove(q: seq<Timer>, k: nat)
    requires k < |q| && Distinct(q)
    ensures Elems(Remove(q, k)) == Elems(q) - {q[k]}
  {
    var r := Remove(q, k);
    assert Insert(r, k, q[k]) == q;
    ElemsInsert(r, k, q[k]);
    ElemsAre(r, q[k]);
  }

  lemma ElemsMoved(q: seq<Timer>, ws: seq<nat>, t: Timer, when: nat)
    requires |ws| == |q| && Distinct(q)
    ensures Elems(Moved(q, ws, t, when)) == if when == 0 then Elems(q) - {t} else Elems(q) + {t}
  {
    ElemsAre(q, t);
    if t in q {
      ElemsRemove(q, IndexOf(q, t));
    }
    if when != 0 {
      ElemsInsert(Without(q, t), Slot(BaseWhens(q, ws, t), when), t);
    }
  }

  datatype Exit = Unscheduled | Kept | Linked | Tied

  /** The walk of reschedule in front of position i, in terms of the queue q and the due times ws it started with. */
  ghost predicate Walking(head: Timer?, nodes: seq<Timer>, q: seq<Timer>, ws: seq<nat>, t: Timer, when: nat,
          prev: Timer?, i: nat)
    reads nodes, q, t
  {
    && |ws| == |q| && Distinct(q) && t.when == when
    && (forall k :: 0 <= k < |q| && q[k] != t ==> q[k].when == ws[k])
    && Chain(head, nodes) && i <= |nodes| && prev == (if i > 0 then nodes[i - 1] else null)
    && (nodes == q || (t in q && when != 0 && i >= IndexOf(q, t) && nodes == Without(q, t)))
    && (forall j :: 0 <= j < i ==> nodes[j] != t && (nodes[j].when <= when || when == 0))
  }

  /** How the walk ended. */
  ghost predicate Ended(head: Timer?, nodes: seq<Timer>, q: seq<Timer>, ws: seq<nat>, t: Timer, when: nat, how: Exit,
          i: nat)
    reads nodes, q, t
  {
    && |ws| == |q| && t.when == when
    && (forall k :: 0 <= k < |q| && q[k] != t ==> q[k].when == ws[k])
    && match how
       case Unscheduled =>
         t in q && when == 0 && nodes == Without(q, t) && Chain(head, nodes)
       case Kept =>
         t in q && when != 0 && i == IndexOf(q, t) && nodes == q && Chain(head, nodes)
         && (forall j :: 0 <= j < i ==> ws[j] <= when) && (i + 1 < |q| ==> when < ws[i + 1])
       case Linked =>
         var base, bs := Without(q, t), BaseWhens(q, ws, t);
         i <= |base| && nodes == Insert(base, i, t) && Chain(head, nodes)
         && (t in q ==> when != 0 && i >= IndexOf(q, t))
         && (forall j :: 0 <= j < i ==> bs[j] <= when || when == 0)
         && (i < |base| ==> when != 0 && when < bs[i])
       case Tied =>
         t in q && when != 0 && i < IndexOf(q, t) && when < ws[i]
  }

  lemma TakenOut(q: seq<Timer>, nodes: seq<Timer>, t: Timer, i: nat)
    requires Distinct(q) && i < |q| && q[i] == t && nodes == Remove(q, i)
    ensures nodes == Without(q, t) && |nodes| < |q|
    ensures forall j :: 0 <= j < i ==> nodes[j] == q[j]
    ensures i > 0 ==> nodes[i - 1] == q[i - 1]
  {
    assert IndexOf(q, t) == i;
  }

  /** What the walk knows about the due times around position i, as values. */
  lemma WalkedWhens(head: Timer?, nodes: seq<Timer>, q: seq<Timer>, ws: seq<nat>, t: Timer, when: nat, prev: Timer?,
          i: nat)
    requires Walking(head, nodes, q, ws, t, when, prev, i) && t !in nodes
    ensures nodes == Without(q, t)
    ensures forall j :: 0 <= j < i ==> BaseWhens(q, ws, t)[j] <= when || when == 0
    ensures i < |nodes| ==> BaseWhens(q, ws, t)[i] == nodes[i].when
  {
    BaseWhensRead(q, ws, t);
  }

  lemma RemoveSorted(ws: seq<nat>, k: nat)
    requires Sorted(ws) && k < |ws|
    ensures Sorted(Remove(ws, k))
  {
    var r := Remove(ws, k);
    forall i, j | 0 <= i < j < |r| ensures r[i] <= r[j] {
      assert r[i] == if i < k then ws[i] else ws[i + 1];
    }
  }

  /** The queue is the moved queue, in order, with the moved due times. */
  ghost predicate AsAsked(head: Timer?, nodes: seq<Timer>, q: seq<Timer>, ws: seq<nat>, t: Timer, when: nat)
    requires |ws| == |q|
    reads nodes
  {
    var ms := MovedWhens(q, ws, t, when);
    nodes == Moved(q, ws, t, when) && Chain(head, nodes) && Timed(nodes, ms) && Sorted(ms) &&
      (t in nodes <==> when != 0)
  }

  lemma UnscheduledAsAsked(head: Timer?, nodes: seq<Timer>, q: seq<Timer>, ws: seq<nat>, t: Timer, i: nat)
    requires Ended(head, nodes, q, ws, t, 0, Unscheduled, i) && Sorted(ws) && Distinct(q)
    ensures SafeMove(q, ws, t, 0) && AsAsked(head, nodes, q, ws, t, 0)
  {
    BaseWhensRead(q, ws, t);
    RemoveSorted(ws, IndexOf(q, t));
  }

  lemma KeptAsAsked(head: Timer?, nodes: seq<Timer>, q: seq<Timer>, ws: seq<nat>, t: Timer, when: nat, i: nat)
    requires Ended(head, nodes, q, ws, t, when, Kept, i) && Sorted(ws) && Distinct(q)
    ensures SafeMove(q, ws, t, when) && AsAsked(head, nodes, q, ws, t, when)
  {
    var bs := Remove(ws, i);
    RemoveSorted(ws, i);
    assert i < |bs| ==> bs[i] == ws[i + 1];
    SlotUnique(bs, when, i);
    var base := Without(q, t);
    assert Insert(base, i, t) == q by {
      forall k | 0 <= k < |q| ensures Insert(base, i, t)[k] == q[k] {
        if k > i {
          assert Insert(base, i, t)[k] == base[k - 1] == q[k];
        }
      }
    }
    InsertSorted(bs, when, i);
    BaseWhensRead(q, ws, t);
    TimedInserted(base, bs, i, t);
  }

  lemma LinkedAsAsked(head: Timer?, nodes: seq<Timer>, q: seq<Timer>, ws: seq<nat>, t: Timer, when: nat, i: nat)
    requires Ended(head, nodes, q, ws, t, when, Linked, i) && Sorted(ws) && Distinct(q) && when != 0
    ensures SafeMove(q, ws, t, when) && AsAsked(head, nodes, q, ws, t, when)
  {
    var base, bs := Without(q, t), BaseWhens(q, ws, t);
    if t in q {
      RemoveSorted(ws, IndexOf(q, t));
      forall j | 0 <= j < IndexOf(q, t) ensures ws[j] <= when {
        assert bs[j] == ws[j];
      }
    }
    SlotUnique(bs, when, i);
    InsertSorted(bs, when, i);
    BaseWhensRead(q, ws, t);
    TimedInserted(base, bs, i, t);
    assert nodes[i] == t;
  }

  lemma LinkedAtZero(head: Timer?, nodes: seq<Timer>, q: seq<Timer>, ws: seq<nat>, t: Timer, i: nat)
    requires Ended(head, nodes, q, ws, t, 0, Linked, i)
    ensures !SafeMove(q, ws, t, 0) && t !in q && nodes == q + [t] && Chain(head, nodes)
  {
  }

  lemma OnlyThisChain(head: Timer?, nodes: seq<Timer>, t: Timer)
    requires Chain(head, nodes) && t in nodes
    ensures forall s :: Chain(head, s) ==> t in s
  {
    forall s | Chain(head, s) ensures t in s {
      ChainUnique(head, nodes, s);
    }
  }

  lemma WalkOutcome(head: Timer?, nodes: seq<Timer>, q: seq<Timer>, ws: seq<nat>, t: Timer, when: nat, how: Exit,
          i: nat)
    requires Ended(head, nodes, q, ws, t, when, how, i) && Sorted(ws) && Distinct(q)
    ensures SafeMove(q, ws, t, when) <==> !how.Tied? && !(how.Linked? && when == 0)
    ensures SafeMove(q, ws, t, when) ==> AsAsked(head, nodes, q, ws, t, when)
    ensures how.Linked? && when == 0 ==> t !in q && nodes == q + [t] && Chain(head, nodes)
    ensures how.Tied? ==> t in q
  {
    match how
    case Unscheduled => UnscheduledAsAsked(head, nodes, q, ws, t, i);
    case Kept => KeptAsAsked(head, nodes, q, ws, t, when, i);
    case Linked =>
      if when != 0 {
        LinkedAsAsked(head, nodes, q, ws, t, when, i);
      } else {
        LinkedAtZero(head, nodes, q, ws, t, i);
      }
    case Tied =>
  }

  function WithoutPings(q: seq<Timer>, game: nat): seq<Timer> {
    if q == [] then []
    else (if q[0].kind == Ping(game) then [] else [q[0]]) + WithoutPings(q[1..], game)
  }

  /** The entries of r stand in q in the same order. */
  ghost predicate InOrderOf(r: seq<Timer>, q: seq<Timer>) {
    r == [] || (q != [] && (if r[0] == q[0] then InOrderOf(r[1..], q[1..]) else InOrderOf(r, q[1..])))
  }

  lemma {:induction false} WithoutPingsKeeps(q: seq<Timer>, game: nat)
    ensures forall n :: n in WithoutPings(q, game) <==> n in q && n.kind != Ping(game)
    ensures InOrderOf(WithoutPings(q, game), q)
  {
    if q != [] {
      var rest := WithoutPings(q[1..], game);
      WithoutPingsKeeps(q[1..], game);
      if q[0].kind == Ping(game) {
        assert WithoutPings(q, game) == rest;
        if rest != [] {
          assert rest[0] in WithoutPings(q[1..], game);
        }
      } else {
        assert WithoutPings(q, game)[1..] == rest;
      }
    }
  }

  lemma {:induction false} WithoutPingsAppend(a: seq<Timer>, b: seq<Timer>, game: nat)
    ensures WithoutPings(a + b, game) == WithoutPings(a, game) + WithoutPings(b, game)
  {
    if a == [] {
      assert a + b == b;
    } else {
      assert (a + b)[1..] == a[1..] + b;
      WithoutPingsAppend(a[1..], b, game);
    }
  }

  lemma PingRemoved(q: seq<Timer>, i: nat, game: nat)
    requires i < |q| && q[i].kind == Ping(game)
    ensures WithoutPings(Remove(q, i), game) == WithoutPings(q, game)
  {
    assert Remove(q, i) == q[..i] + q[i + 1..];
    assert q == q[..i] + ([q[i]] + q[i + 1..]);
    assert WithoutPings([q[i]], game) == [];
    WithoutPingsAppend(q[..i], q[i + 1..], game);
    WithoutPingsAppend(q[..i], [q[i]] + q[i + 1..], game);
    WithoutPingsAppend([q[i]], q[i + 1..], game);
  }

  predicate Among(s: seq<Timer>, q: seq<Timer>) {
    forall k :: 0 <= k < |s| ==> s[k] in q
  }

  lemma AmongRemoved(s: seq<Timer>, q: seq<Timer>, i: nat)
    requires Among(s, q) && i < |s|
    ensures Among(Remove(s, i), q) && s[i] in q
  {
  }

  predicate NoPings(q: seq<Timer>, k: nat, game: nat) {
    k <= |q| && forall j :: 0 <= j < k ==> q[j].kind != Ping(game)
  }

  lemma NoPingsRemoved(q: seq<Timer>, k: nat, game: nat)
    requires NoPings(q, k, game) && k < |q|
    ensures NoPings(Remove(q, k), k, game)
  {
  }

  lemma NoPingsStep(q: seq<Timer>, k: nat, game: nat)
    requires NoPings(q, k, game) && k < |q| && q[k].kind != Ping(game)
    ensures NoPings(q, k + 1, game)
  {
  }

  lemma {:induction false} NoPingsLeft(q: seq<Timer>, game: nat)
    requires NoPings(q, |q|, game)
    ensures WithoutPings(q, game) == q
  {
    if q != [] {
      NoPingsLeft(q[1..], game);
    }
  }

  // ---------------------------------------------------------------- the queue

  /** The node, if there is one. */
  ghost function NonNull(t: Timer?): set<Timer> {
    if t == null then {} else {t}
  }

  class Queue {
    var head: Timer?
    ghost var nodes: seq<Timer>
    ghost var ws: seq<nat>
    ghost var elems: set<Timer>

    /** A sorted chain; `ws` are its due times, `elems` its nodes. */
    ghost predicate Valid()
      reads this, nodes
    {
      && Chain(head, nodes) && Timed(nodes, ws) && Sorted(ws)
      && elems == Elems(nodes)
    }

    constructor ()
      ensures Valid() && nodes == [] && ws == [] && elems == {}
    {
      head, nodes, ws, elems := null, [], [], {};
    }

    /** rc_client_schedule_callback. */
    method Schedule(t: Timer)
      requires Valid() && t !in elems
      modifies this, t`next, nodes`next
      ensures Valid()
      ensures var k := Slot(old(ws), t.when); nodes == Insert(old(nodes), k, t) && ws == Insert(old(ws), k, t.when)
      ensures elems == old(elems) + {t}
    {
      ghost var q := nodes;
      ElemsInsert(q, Slot(ws, t.when), t);
      ElemsAre(q, t);
      var prev, next;
      ghost var i;
      prev, next, i := FindSlot(t.when);
      ChainDistinct(head, nodes);
      Splice(prev, t, next, i);
      TimedInserted(q, ws, i, t);
      InsertSorted(ws, t.when, i);
      ws := Insert(ws, i, t.when);
      elems := elems + {t};
    }

    /** The search loop of rc_client_schedule_callback. */
    method FindSlot(when: nat) returns (prev: Timer?, next: Timer?, ghost i: nat)
      requires Valid()
      ensures i == Slot(ws, when)
      ensures next == NodeAt(nodes, i) && prev == if i > 0 then nodes[i - 1] else null
    {
      prev, next, i := null, head, 0;
      while next != null && next.when <= when
        invariant 0 <= i <= |nodes|
        invariant next == NodeAt(nodes, i)
        invariant prev == if i > 0 then nodes[i - 1] else null
        invariant forall j :: 0 <= j < i ==> ws[j] <= when
        decreases |nodes| - i
      {
        prev, next := next, next.next;
        i := i + 1;
      }
      SlotUnique(ws, when, i);
    }

    /** The two pointer writes that link t in front of next. */
    method LinkIn(prev: Timer?, t: Timer, next: Timer?, ghost i: nat)
      requires Chain(head, nodes) && Distinct(nodes) && i <= |nodes| && (forall j :: 0 <= j < i ==> nodes[j] != t)
      requires next == NodeAt(nodes, i) && next != t
      requires prev == if i > 0 then nodes[i - 1] else null
      modifies this`head, t`next, nodes`next
      ensures Spliced(head, nodes, i, t)
    {
      t.next := next;
      if prev == null {
        head := t;
      } else {
        prev.next := t;
      }
    }

    /** Link t in behind the first i nodes. If t is still linked further on, this closes a cycle. */
    method Splice(prev: Timer?, t: Timer, next: Timer?, ghost i: nat)
      requires Chain(head, nodes) && Distinct(nodes) && i <= |nodes| && (forall j :: 0 <= j < i ==> nodes[j] != t)
      requires next == NodeAt(nodes, i) && next != t
      requires prev == if i > 0 then nodes[i - 1] else null
      modifies this`head, this`nodes, t`next, nodes`next
      ensures t !in old(nodes) ==> nodes == Insert(old(nodes), i, t) && Chain(head, nodes)
      ensures t in old(nodes) ==> nodes == old(nodes) && forall s :: !Chain(head, s)
    {
      LinkIn(prev, t, next, i);
      if t in nodes {
        StillQueued(nodes, t, i);
        SplicedCycle(head, nodes, i, t, IndexOf(nodes, t));
      } else {
        SplicedChain(head, nodes, i, t);
        nodes := Insert(nodes, i, t);
      }
    }

    /** One round of the loop of rc_client_reschedule_callback. */
    method Visit(prev: Timer?, t: Timer, when: nat, ghost q: seq<Timer>, ghost ws: seq<nat>, ghost i: nat)
      returns (done: bool, prev': Timer?, ghost how: Exit, ghost i': nat)
      requires Walking(head, nodes, q, ws, t, when, prev, i)
      modifies this`head, this`nodes, t`next, nodes`next
      ensures done ==> Ended(head, nodes, q, ws, t, when, how, i') && (how.Tied? ==> forall s :: !Chain(head, s))
      ensures !done ==> Walking(head, nodes, q, ws, t, when, prev', i') && |nodes| - i' < old(|nodes|) - i
      ensures forall n :: n in nodes ==> n in old(nodes) || n == t
    {
      done, prev', i' := true, prev, i;
      var next := if prev == null then head else prev.next;
      assert next == NodeAt(nodes, i);
      if next == t {
        done, how := AtOwnPlace(prev, t, when, q, ws, i);
      } else if next == null || (when < next.when && when != 0) {
        how := PlaceBefore(prev, t, next, when, q, ws, i);
      } else {
        done, prev', how, i' := false, next, Kept, i + 1;
      }
    }

    /** The branch of the loop that meets t itself. */
    method AtOwnPlace(prev: Timer?, t: Timer, when: nat, ghost q: seq<Timer>, ghost ws: seq<nat>, ghost i: nat)
      returns (done: bool, ghost how: Exit)
      requires Walking(head, nodes, q, ws, t, when, prev, i) && i < |nodes| && nodes[i] == t
      modifies this`head, this`nodes, t`next, nodes`next
      ensures done ==> Ended(head, nodes, q, ws, t, when, how, i) && !how.Tied?
      ensures !done ==> Walking(head, nodes, q, ws, t, when, prev, i) && |nodes| < old(|nodes|)
      ensures forall n :: n in nodes ==> n in old(nodes)
    {
      assert nodes == q && i == IndexOf(q, t);
      var next := t.next;
      how := if when == 0 then Unscheduled else Kept;
      if when != 0 && (next == null || when < next.when) {
        done := true;
      } else {
        Unlink(prev, t, i);
        TakenOut(q, nodes, t, i);
        done := when == 0;
      }
    }

    /** The insertion branch of the loop. */
    method PlaceBefore(prev: Timer?, t: Timer, next: Timer?, when: nat, ghost q: seq<Timer>, ghost ws: seq<nat>,
            ghost i: nat)
      returns (ghost how: Exit)
      requires Walking(head, nodes, q, ws, t, when, prev, i)
      requires next == NodeAt(nodes, i) && next != t
      requires next == null || (when < next.when && when != 0)
      modifies this`head, this`nodes, t`next, nodes`next
      ensures Ended(head, nodes, q, ws, t, when, how, i) && (how.Tied? ==> forall s :: !Chain(head, s))
      ensures forall n :: n in nodes ==> n in old(nodes) || n == t
    {
      ghost var was := nodes;
      ChainDistinct(head, was);
      if t in was {
        StillQueued(q, t, i);
        how := Tied;
      } else {
        WalkedWhens(head, was, q, ws, t, when, prev, i);
        how := Linked;
      }
      Splice(prev, t, next, i);
    }

    /** The loop of rc_client_reschedule_callback. */
    method Walk(t: Timer, when: nat, ghost qs: seq<nat>) returns (ghost how: Exit, ghost i: nat)
      requires Chain(head, nodes) && Timed(nodes, qs)
      modifies this`head, this`nodes, t`when, t`next, nodes`next
      ensures Ended(head, nodes, old(nodes), qs, t, when, how, i)
      ensures how.Tied? ==> forall s :: !Chain(head, s)
    {
      ghost var q := nodes;
      ChainDistinct(head, q);
      t.when := when;
      var prev: Timer? := null;
      var done := false;
      i := 0;
      how := Unscheduled;
      while !done
        invariant if done then Ended(head, nodes, q, qs, t, when, how, i)
                  else Walking(head, nodes, q, qs, t, when, prev, i)
        invariant done && how.Tied? ==> forall s :: !Chain(head, s)
        invariant forall n :: n in nodes ==> n in q || n == t
        decreases !done, |nodes| - i
      {
        done, prev, how, i := Visit(prev, t, when, q, qs, i);
      }
    }

    /** rc_client_reschedule_callback. The queue ends up as asked exactly if the move is safe; an
        unsafe move of a queued entry ties the list into a cycle, an unsafe request to unschedule
        appends the entry with time 0. */
    method Reschedule(t: Timer, when: nat) returns (ghost safe: bool)
      requires Valid()
      modifies this, t`when, t`next, nodes`next
      ensures t.when == when
      ensures safe == old(SafeMove(nodes, ws, t, when))
      ensures safe ==> Valid() && nodes == old(Moved(nodes, ws, t, when)) && ws == old(MovedWhens(nodes, ws, t, when))
      ensures safe ==> elems == (if when == 0 then old(elems) - {t} else old(elems) + {t})
      ensures safe ==> ScheduledAt(head, nodes, t, when)
      ensures !safe ==> forall s :: !ScheduledAt(head, s, t, when)
      ensures !safe && t in old(nodes) ==> forall s :: !Chain(head, s)
      ensures !safe && t !in old(nodes) ==> Chain(head, old(nodes) + [t])
    {
      ghost var q, qs := nodes, ws;
      ChainDistinct(head, q);
      ElemsMoved(q, qs, t, when);
      ws, elems := MovedWhens(q, qs, t, when), if when == 0 then elems - {t} else elems + {t};
      safe := RescheduleChain(t, when, qs);
    }

    /** Its effect on the chain. */
    method RescheduleChain(t: Timer, when: nat, ghost qs: seq<nat>) returns (ghost safe: bool)
      requires Chain(head, nodes) && Timed(nodes, qs) && Sorted(qs)
      modifies this`head, this`nodes, t`when, t`next, nodes`next
      ensures t.when == when
      ensures safe == SafeMove(old(nodes), qs, t, when)
      ensures safe ==> AsAsked(head, nodes, old(nodes), qs, t, when)
      ensures !safe ==> forall s :: !ScheduledAt(head, s, t, when)
      ensures !safe && t in old(nodes) ==> forall s :: !Chain(head, s)
      ensures !safe && t !in old(nodes) ==> Chain(head, old(nodes) + [t])
    {
      ghost var q := nodes;
      safe := SafeMove(q, qs, t, when);
      ChainDistinct(head, q);
      ghost var how, i := Walk(t, when, qs);
      WalkOutcome(head, nodes, q, qs, t, when, how, i);
      if !safe && how.Linked? {
        OnlyThisChain(head, nodes, t);
      }
    }

    /** The removal of the front entry in rc_client_idle. */
    method PopFront() returns (t: Timer)
      requires Valid() && head != null
      modifies this, head`next
      ensures nodes == old(nodes)[1..] && ws == old(ws)[1..] && elems == old(elems) - {t}
      ensures t == old(head) == old(nodes)[0] && t.next == null && t !in elems
      ensures Valid()
    {
      ghost var q := nodes;
      ChainDistinct(head, q);
      t := head;
      head := t.next;
      t.next := null;
      nodes, ws, elems := q[1..], ws[1..], elems - {t};
      forall i | 0 <= i < |nodes| ensures nodes[i].next == NodeAt(nodes, i + 1) {
        assert nodes[i] == q[i + 1] && q[i + 1] != t;
      }
      assert t !in q[1..];
      ElemsAre(q[1..], t);
    }

    /** The unload loop of rc_client.c: cut out the pings of one game. */
    method DropPings(game: nat)
      requires Valid()
      modifies this, nodes`next
      ensures Valid() && nodes == old(WithoutPings(nodes, game))
      ensures forall n :: n in nodes <==> n in old(nodes) && n.kind != Ping(game)
      ensures InOrderOf(nodes, old(nodes))
      ensures elems <= old(elems) && NoPings(nodes, |nodes|, game)
    {
      ghost var q := nodes;
      var prev: Timer? := null;
      ghost var i := 0;
      var next := head;
      while next != null
        invariant Dropping(q, prev, next, i, game)
        invariant elems <= old(elems)
        decreases |nodes| - i
      {
        assert prev != null ==> prev in q;
        prev, next, i := DropStep(q, prev, next, i, game);
      }
      NoPingsLeft(nodes, game);
      WithoutPingsKeeps(q, game);
    }

    /** The first i nodes are not pings of the game, and nothing else has been cut out of q. */
    ghost predicate Dropping(q: seq<Timer>, prev: Timer?, next: Timer?, i: nat, game: nat)
      reads this, nodes
    {
      && Valid() && i <= |nodes| && prev == (if i > 0 then nodes[i - 1] else null) && next == NodeAt(nodes, i)
      && WithoutPings(nodes, game) == WithoutPings(q, game)
      && NoPings(nodes, i, game) && Among(nodes, q)
    }

    method DropStep(ghost q: seq<Timer>, prev: Timer?, next: Timer, ghost i: nat, game: nat)
      returns (prev': Timer?, next': Timer?, ghost i': nat)
      requires Dropping(q, prev, next, i, game)
      modifies this, NonNull(prev)`next
      ensures Dropping(q, prev', next', i', game)
      ensures |nodes| - i' < old(|nodes|) - i && elems <= old(elems)
    {
      AmongRemoved(nodes, q, i);
      if next.kind == Ping(game) {
        PingRemoved(nodes, i, game);
        NoPingsRemoved(nodes, i, game);
        CutSorted(prev, next, i);
        prev', next', i' := prev, if prev == null then head else prev.next, i;
      } else {
        NoPingsStep(nodes, i, game);
        prev', next', i' := next, next.next, i + 1;
      }
    }

    method CutSorted(prev: Timer?, t: Timer, ghost i: nat)
      requires Valid() && i < |nodes| && nodes[i] == t
      requires prev == if i > 0 then nodes[i - 1] else null
      modifies this, NonNull(prev)`next
      ensures nodes == Remove(old(nodes), i) && Valid()
      ensures elems == old(elems) - {t}
    {
      ChainDistinct(head, nodes);
      ElemsRemove(nodes, i);
      RemoveSorted(ws, i);
      CutOut(prev, t, i);
      ws, elems := Remove(ws, i), elems - {t};
    }

    /** Link around the node at position i. */
    method CutOut(prev: Timer?, t: Timer, ghost i: nat)
      requires Chain(head, nodes) && i < |nodes| && nodes[i] == t
      requires prev == if i > 0 then nodes[i - 1] else null
      modifies this`head, this`nodes, NonNull(prev)`next
      ensures nodes == Remove(old(nodes), i) && Chain(head, nodes)
    {
      ghost var q := nodes;
      ChainDistinct(head, q);
      if prev == null {
        head := t.next;
      } else {
        prev.next := t.next;
      }
      UnlinkedChain(head, q, i);
      nodes := Remove(q, i);
    }

    /** Take the node at position i out. */
    method Unlink(prev: Timer?, t: Timer, ghost i: nat)
      requires Chain(head, nodes) && i < |nodes| && nodes[i] == t
      requires prev == if i > 0 then nodes[i - 1] else null
      modifies this`head, this`nodes, t`next, nodes`next
      ensures nodes == Remove(old(nodes), i) && Chain(head, nodes)
    {
      ghost var q := nodes;
      ChainDistinct(head, q);
      CutOut(prev, t, i);
      t.next := null;
    }
  }
}

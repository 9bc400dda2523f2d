/** The two-pass achievement list of rc_client.c: count the entries of every bucket, then fill the buckets.
    An entry is a pointer to an achievement: its subset and its place there. */
module AchievementList {

  // ---------------------------------------------------------------- achievements and their buckets

  const LOCKED: nat := 1
  const UNLOCKED: nat := 2
  const UNSUPPORTED: nat := 3
  const UNOFFICIAL: nat := 4
  const RECENTLY_UNLOCKED: nat := 5
  const ACTIVE_CHALLENGE: nat := 6
  const ALMOST_THERE: nat := 7
  const UNSYNCED: nat := 8
  const NUM_BUCKETS: nat := 9

  datatype Measured = Unmeasured | NotYet | Progress(value: nat, target: nat)

  datatype Achievement = Achievement(
    id: nat, core: bool, unofficial: bool,       // the two bits of the category
    unlocked: bool, unlockTime: int,
    waiting: bool,                      // its unlock is still to be sent to the server
    trigger: bool, primed: bool, measured: Measured,
    bucket: nat, percent: real)

  datatype Query = Query(core: bool, unofficial: bool, byProgress: bool, recent: int, disconnected: bool)

  predicate Wanted(a: Achievement, q: Query) {
    (a.core && q.core) || (a.unofficial && q.unofficial)
  }

  /** The measured percentage, clamped at the target; left alone while nothing is known. */
  function Percent(a: Achievement): real {
    if a.trigger && a.measured.Progress? && a.measured.target != 0 then
      (if a.measured.value > a.measured.target then a.measured.target else a.measured.value) as real *
        100.0 / a.measured.target as real
    else a.percent
  }

  /** rc_client_update_achievement_display_information. */
  function Updated(a: Achievement, q: Query): (r: Achievement)
    ensures 1 <= r.bucket < NUM_BUCKETS
    ensures Wanted(r, q) <==> Wanted(a, q)
  {
    if a.bucket == UNSUPPORTED then a
    else if a.unlocked then
      a.(bucket := if a.unlockTime >= q.recent then RECENTLY_UNLOCKED
                   else if q.disconnected && a.waiting then UNSYNCED
                   else UNLOCKED)
    else
      var base := if a.unofficial && !a.core then UNOFFICIAL else LOCKED;
      var percent := Percent(a);
      a.(percent := percent,
         bucket := if a.trigger && a.primed then ACTIVE_CHALLENGE
                   else if a.trigger && percent >= 80.0 then ALMOST_THERE
                   else base)
  }

  /** rc_client_map_bucket. */
  function Mapped(bucket: nat, q: Query): nat {
    if !q.byProgress then
      if bucket == RECENTLY_UNLOCKED || bucket == UNSYNCED then UNLOCKED
      else if bucket == ACTIVE_CHALLENGE || bucket == ALMOST_THERE then LOCKED
      else bucket
    else bucket
  }

  datatype Subset = Subset(id: nat, active: bool, items: seq<Achievement>)

  /** The bucket an achievement is listed in, -1 for none. */
  function KindOf(sub: Subset, i: nat, q: Query): int
    requires i < |sub.items|
  {
    if sub.active && Wanted(sub.items[i], q) then Mapped(sub.items[i].bucket, q) else -1
  }

  /** The bucket of every achievement of every subset. */
  function Kinds(subsets: seq<Subset>, q: Query): (r: seq<seq<int>>)
    ensures |r| == |subsets|
    ensures forall s :: 0 <= s < |subsets| ==> |r[s]| == |subsets[s].items|
    ensures forall s, i :: 0 <= s < |subsets| && 0 <= i < |subsets[s].items| ==> r[s][i] == KindOf(subsets[s], i, q)
  {
    seq(|subsets|, s requires 0 <= s < |subsets| =>
      seq(|subsets[s].items|, i requires 0 <= i < |subsets[s].items| => KindOf(subsets[s], i, q)))
  }

  // ---------------------------------------------------------------- the list, from the kinds alone

  datatype Pointer = Pointer(subset: nat, index: nat)

  /** The first n achievements of subset s that go to bucket t. */
  function Picks(row: seq<int>, s: nat, n: nat, t: nat): seq<Pointer>
    requires n <= |row|
  {
    if n == 0 then []
    else if row[n - 1] == t then Picks(row, s, n - 1, t) + [Pointer(s, n - 1)]
    else Picks(row, s, n - 1, t)
  }

  /** Over the first m subsets. */
  function AllPicks(kinds: seq<seq<int>>, m: nat, t: nat): seq<Pointer>
    requires m <= |kinds|
  {
    if m == 0 then [] else AllPicks(kinds, m - 1, t) + Picks(kinds[m - 1], m - 1, |kinds[m - 1]|, t)
  }

  datatype Bucket = Bucket(subset: nat, kind: nat, items: seq<Pointer>)

  /** Buckets in the order they are written. */
  datatype Buckets = Start | Add(front: Buckets, last: Bucket)

  const SHARED_ORDER: seq<nat> := [ACTIVE_CHALLENGE, RECENTLY_UNLOCKED, ALMOST_THERE, UNSYNCED]
  const SUBSET_ORDER: seq<nat> := [LOCKED, UNOFFICIAL, UNSUPPORTED, UNLOCKED]

  /** Among the first n of an order. */
  predicate Among(kind: int, order: seq<nat>, n: nat)
    requires n <= |order|
  {
    n > 0 && (kind == order[n - 1] || Among(kind, order, n - 1))
  }

  ghost predicate Distinct(order: seq<nat>) {
    forall i, j :: 0 <= i < j < |order| ==> order[i] != order[j]
  }

  /** One more bucket, unless it would be empty. */
  function Grow(bs: Buckets, subset: nat, kind: nat, items: seq<Pointer>): Buckets {
    if |items| == 0 then bs else Add(bs, Bucket(subset, kind, items))
  }

  function SharedBuckets(kinds: seq<seq<int>>, order: seq<nat>, n: nat): Buckets
    requires n <= |order|
  {
    if n == 0 then Start
    else Grow(SharedBuckets(kinds, order, n - 1), 0, order[n - 1], AllPicks(kinds, |kinds|, order[n - 1]))
  }

  /** The buckets of one subset, behind the earlier ones. */
  function OneSubset(bs: Buckets, row: seq<int>, s: nat, id: nat, order: seq<nat>, n: nat): Buckets
    requires n <= |order|
  {
    if n == 0 then bs
    else Grow(OneSubset(bs, row, s, id, order, n - 1), id, order[n - 1], Picks(row, s, |row|, order[n - 1]))
  }

  function SubsetBuckets(bs: Buckets, kinds: seq<seq<int>>, ids: seq<nat>, order: seq<nat>, m: nat): Buckets
    requires m <= |kinds| == |ids|
  {
    if m == 0 then bs
    else OneSubset(SubsetBuckets(bs, kinds, ids, order, m - 1), kinds[m - 1], m - 1, ids[m - 1], order, |order|)
  }

  /** The finished list. */
  function TheList(kinds: seq<seq<int>>, ids: seq<nat>, byProgress: bool): Buckets
    requires |kinds| == |ids|
  {
    SubsetBuckets(if byProgress then SharedBuckets(kinds, SHARED_ORDER, |SHARED_ORDER|) else Start,
      kinds, ids, SUBSET_ORDER, |kinds|)
  }

  // ---------------------------------------------------------------- every entry once

  function One(b: bool): nat {
    if b then 1 else 0
  }

  /** How often p occurs in all buckets together. */
  function Listed(bs: Buckets, p: Pointer): nat {
    match bs
    case Start => 0
    case Add(front, last) => Listed(front, p) + multiset(last.items)[p]
  }

  lemma ListedGrow(bs: Buckets, subset: nat, kind: nat, items: seq<Pointer>, p: Pointer)
    ensures Listed(Grow(bs, subset, kind, items), p) == Listed(bs, p) + multiset(items)[p]
  {
    if |items| == 0 {
      assert items == [];
    }
  }

  /** The bucket of a pointer into one row, -1 if it does not point there. */
  function RowAt(row: seq<int>, s: nat, p: Pointer): int {
    if p.subset == s && p.index < |row| then row[p.index] else -1
  }

  /** The bucket of a pointer, -1 if it points nowhere. */
  function At(kinds: seq<seq<int>>, p: Pointer): int {
    if p.subset < |kinds| && p.index < |kinds[p.subset]| then kinds[p.subset][p.index] else -1
  }

  lemma {:induction false} PicksOccur(row: seq<int>, s: nat, n: nat, t: nat, p: Pointer)
    requires n <= |row|
    ensures multiset(Picks(row, s, n, t))[p] == One(p.subset == s && p.index < n && row[p.index] == t)
  {
    if n > 0 {
      PicksOccur(row, s, n - 1, t, p);
    }
  }

  lemma RowOccurs(row: seq<int>, s: nat, t: nat, p: Pointer)
    ensures multiset(Picks(row, s, |row|, t))[p] == One(RowAt(row, s, p) == t)
  {
    PicksOccur(row, s, |row|, t, p);
  }

  lemma {:induction false} AllPicksOccur(kinds: seq<seq<int>>, m: nat, t: nat, p: Pointer)
    requires m <= |kinds|
    ensures multiset(AllPicks(kinds, m, t))[p] == One(p.subset < m && At(kinds, p) == t)
  {
    if m > 0 {
      AllPicksOccur(kinds, m - 1, t, p);
      RowOccurs(kinds[m - 1], m - 1, t, p);
    }
  }

  lemma {:induction false} AmongIs(kind: int, order: seq<nat>, n: nat)
    requires n <= |order|
    ensures Among(kind, order, n) <==> exists j :: 0 <= j < n && order[j] == kind
  {
    if n > 0 {
      AmongIs(kind, order, n - 1);
    }
  }

  lemma AmongSteps(kind: int, order: seq<nat>, n: nat)
    requires 0 < n <= |order| && Distinct(order)
    ensures One(Among(kind, order, n)) == One(Among(kind, order, n - 1)) + One(kind == order[n - 1])
  {
    AmongIs(kind, order, n - 1);
  }

  lemma {:induction false} SharedListed(kinds: seq<seq<int>>, order: seq<nat>, n: nat, p: Pointer)
    requires n <= |order| && Distinct(order)
    ensures Listed(SharedBuckets(kinds, order, n), p) == One(Among(At(kinds, p), order, n))
  {
    hide AllPicks, Distinct;
    if n > 0 {
      var t := order[n - 1];
      SharedListed(kinds, order, n - 1, p);
      ListedGrow(SharedBuckets(kinds, order, n - 1), 0, t, AllPicks(kinds, |kinds|, t), p);
      AllPicksOccur(kinds, |kinds|, t, p);
      AmongSteps(At(kinds, p), order, n);
    }
  }

  lemma {:induction false} OneListed(bs: Buckets, row: seq<int>, s: nat, id: nat, order: seq<nat>, n: nat, p: Pointer)
    requires n <= |order| && Distinct(order)
    ensures Listed(OneSubset(bs, row, s, id, order, n), p) == Listed(bs, p) + One(Among(RowAt(row, s, p), order, n))
  {
    if n > 0 {
      var t := order[n - 1];
      OneListed(bs, row, s, id, order, n - 1, p);
      ListedGrow(OneSubset(bs, row, s, id, order, n - 1), id, t, Picks(row, s, |row|, t), p);
      RowOccurs(row, s, t, p);
      AmongSteps(RowAt(row, s, p), order, n);
    }
  }

  lemma {:induction false} SubsetsListed(bs: Buckets, kinds: seq<seq<int>>, ids: seq<nat>, order: seq<nat>, m: nat,
          p: Pointer)
    requires m <= |kinds| == |ids| && Distinct(order)
    ensures Listed(SubsetBuckets(bs, kinds, ids, order, m), p) ==
            Listed(bs, p) + One(p.subset < m && Among(At(kinds, p), order, |order|))
  {
    if m > 0 {
      SubsetsListed(bs, kinds, ids, order, m - 1, p);
      OneListed(SubsetBuckets(bs, kinds, ids, order, m - 1), kinds[m - 1], m - 1, ids[m - 1], order, |order|, p);
      NotThere(order, |order|);
    }
  }

  lemma {:induction false} NotThere(order: seq<nat>, n: nat)
    requires n <= |order|
    ensures !Among(-1, order, n)
  {
    if n > 0 {
      NotThere(order, n - 1);
    }
  }

  /** What the first pass leaves: every listed achievement has a proper bucket, and one for the grouping. */
  ghost predicate Ready(kinds: seq<seq<int>>, byProgress: bool) {
    forall s, i :: 0 <= s < |kinds| && 0 <= i < |kinds[s]| && kinds[s][i] != -1 ==> Proper(kinds[s][i], byProgress)
  }

  predicate Proper(kind: int, byProgress: bool) {
    kind == LOCKED || kind == UNOFFICIAL || kind == UNSUPPORTED || kind == UNLOCKED ||
    (byProgress && (kind == ACTIVE_CHALLENGE || kind == RECENTLY_UNLOCKED || kind == ALMOST_THERE || kind == UNSYNCED))
  }

  lemma OrdersCover(kind: int)
    ensures Distinct(SHARED_ORDER) && Distinct(SUBSET_ORDER) && |SHARED_ORDER| == |SUBSET_ORDER| == 4
    ensures Among(kind, SUBSET_ORDER, 4) <==> Proper(kind, false)
    ensures Among(kind, SHARED_ORDER, 4) <==> Proper(kind, true) && !Proper(kind, false)
  {
    AmongIs(kind, SHARED_ORDER, 4);
    AmongIs(kind, SUBSET_ORDER, 4);
    assert SUBSET_ORDER[0] == 1 && SUBSET_ORDER[1] == 4 && SUBSET_ORDER[2] == 3 && SUBSET_ORDER[3] == 2;
    assert SHARED_ORDER[0] == 6 && SHARED_ORDER[1] == 5 && SHARED_ORDER[2] == 7 && SHARED_ORDER[3] == 8;
  }

  /** Every achievement with a bucket is listed exactly once, and nothing else is. */
  lemma ListIsPartition(kinds: seq<seq<int>>, ids: seq<nat>, byProgress: bool, p: Pointer)
    requires |kinds| == |ids| && Ready(kinds, byProgress)
    ensures Listed(TheList(kinds, ids, byProgress), p) == One(At(kinds, p) != -1)
  {
    OrdersCover(At(kinds, p));
    var shared := if byProgress then SharedBuckets(kinds, SHARED_ORDER, |SHARED_ORDER|) else Start;
    SubsetsListed(shared, kinds, ids, SUBSET_ORDER, |kinds|, p);
    if byProgress {
      SharedListed(kinds, SHARED_ORDER, |SHARED_ORDER|, p);
    }
  }

  /** No bucket is empty, and what a bucket lists belongs there. */
  ghost predicate Sound(bs: Buckets, kinds: seq<seq<int>>) {
    match bs
    case Start => true
    case Add(front, last) => Sound(front, kinds) && |last.items| > 0 && Belongs(last, kinds)
  }

  ghost predicate Belongs(b: Bucket, kinds: seq<seq<int>>) {
    forall i :: 0 <= i < |b.items| ==> At(kinds, b.items[i]) == b.kind
  }

  lemma {:induction false} SharedSound(kinds: seq<seq<int>>, order: seq<nat>, n: nat)
    requires n <= |order|
    ensures Sound(SharedBuckets(kinds, order, n), kinds)
  {
    if n > 0 {
      SharedSound(kinds, order, n - 1);
      AllPicksBelong(kinds, order[n - 1]);
    }
  }

  lemma AllPicksBelong(kinds: seq<seq<int>>, t: nat)
    ensures Belongs(Bucket(0, t, AllPicks(kinds, |kinds|, t)), kinds)
  {
    var items := AllPicks(kinds, |kinds|, t);
    forall i | 0 <= i < |items| ensures At(kinds, items[i]) == t {
      AllPicksOccur(kinds, |kinds|, t, items[i]);
      assert items[i] in multiset(items);
    }
  }

  lemma PicksBelong(kinds: seq<seq<int>>, s: nat, id: nat, t: nat)
    requires s < |kinds|
    ensures Belongs(Bucket(id, t, Picks(kinds[s], s, |kinds[s]|, t)), kinds)
  {
    var items := Picks(kinds[s], s, |kinds[s]|, t);
    forall i | 0 <= i < |items| ensures At(kinds, items[i]) == t {
      RowOccurs(kinds[s], s, t, items[i]);
      assert items[i] in multiset(items);
    }
  }

  lemma {:induction false} OneSound(bs: Buckets, kinds: seq<seq<int>>, s: nat, id: nat, order: seq<nat>, n: nat)
    requires n <= |order| && s < |kinds| && Sound(bs, kinds)
    ensures Sound(OneSubset(bs, kinds[s], s, id, order, n), kinds)
  {
    if n > 0 {
      OneSound(bs, kinds, s, id, order, n - 1);
      PicksBelong(kinds, s, id, order[n - 1]);
    }
  }

  lemma {:induction false} SubsetsSound(bs: Buckets, kinds: seq<seq<int>>, ids: seq<nat>, order: seq<nat>, m: nat)
    requires m <= |kinds| == |ids| && Sound(bs, kinds)
    ensures Sound(SubsetBuckets(bs, kinds, ids, order, m), kinds)
  {
    if m > 0 {
      SubsetsSound(bs, kinds, ids, order, m - 1);
      OneSound(SubsetBuckets(bs, kinds, ids, order, m - 1), kinds, m - 1, ids[m - 1], order, |order|);
    }
  }

  /** Every entry is in the bucket of its own kind, and no bucket is empty. */
  lemma ListIsSound(kinds: seq<seq<int>>, ids: seq<nat>, byProgress: bool)
    requires |kinds| == |ids|
    ensures Sound(TheList(kinds, ids, byProgress), kinds)
  {
    SharedSound(kinds, SHARED_ORDER, |SHARED_ORDER|);
    SubsetsSound(if byProgress then SharedBuckets(kinds, SHARED_ORDER, |SHARED_ORDER|) else Start,
      kinds, ids, SUBSET_ORDER, |kinds|);
  }

  // ---------------------------------------------------------------- the counts of the first pass

  /** The entries of all buckets together, and the buckets. */
  function Total(bs: Buckets): nat {
    match bs case Start => 0 case Add(front, last) => Total(front) + |last.items|
  }

  function Length(bs: Buckets): nat {
    match bs case Start => 0 case Add(front, _) => Length(front) + 1
  }

  /** How many of the first n of a row go to bucket t. */
  function RowCount(row: seq<int>, n: nat, t: nat): nat
    requires n <= |row|
  {
    if n == 0 then 0 else RowCount(row, n - 1, t) + One(row[n - 1] == t)
  }

  function AllCount(kinds: seq<seq<int>>, m: nat, t: nat): nat
    requires m <= |kinds|
  {
    if m == 0 then 0 else AllCount(kinds, m - 1, t) + RowCount(kinds[m - 1], |kinds[m - 1]|, t)
  }

  /** bucket_counts: how many achievements go to bucket t. */
  function Count(kinds: seq<seq<int>>, t: nat): nat {
    AllCount(kinds, |kinds|, t)
  }

  lemma {:induction false} PicksCount(row: seq<int>, s: nat, n: nat, t: nat)
    requires n <= |row|
    ensures |Picks(row, s, n, t)| == RowCount(row, n, t)
  {
    if n > 0 {
      PicksCount(row, s, n - 1, t);
    }
  }

  lemma {:induction false} AllPicksCount(kinds: seq<seq<int>>, m: nat, t: nat)
    requires m <= |kinds|
    ensures |AllPicks(kinds, m, t)| == AllCount(kinds, m, t)
  {
    if m > 0 {
      AllPicksCount(kinds, m - 1, t);
      PicksCount(kinds[m - 1], m - 1, |kinds[m - 1]|, t);
    }
  }

  /** How many of the first m subsets have an entry in bucket t. */
  function Holders(kinds: seq<seq<int>>, m: nat, t: nat): nat
    requires m <= |kinds|
  {
    if m == 0 then 0 else Holders(kinds, m - 1, t) + One(RowCount(kinds[m - 1], |kinds[m - 1]|, t) > 0)
  }

  /** How many buckets of this kind there will be: one per subset that has entries if it is split by subset. */
  function BucketsOf(kinds: seq<seq<int>>, multi: bool, t: nat): nat {
    if Count(kinds, t) == 0 then 0 else if multi && Proper(t, false) then Holders(kinds, |kinds|, t) else 1
  }

  /** num_achievements and num_buckets, summed over the first n kinds. */
  function NumAchievements(kinds: seq<seq<int>>, n: nat): nat {
    if n == 0 then 0 else NumAchievements(kinds, n - 1) + Count(kinds, n - 1)
  }

  function NumBuckets(kinds: seq<seq<int>>, multi: bool, n: nat): nat {
    if n == 0 then 0 else NumBuckets(kinds, multi, n - 1) + BucketsOf(kinds, multi, n - 1)
  }

  /** Entries, and kinds with entries, among the first n kinds of an order. */
  function CountSum(kinds: seq<seq<int>>, m: nat, order: seq<nat>, n: nat): nat
    requires m <= |kinds| && n <= |order|
  {
    if n == 0 then 0 else CountSum(kinds, m, order, n - 1) + AllCount(kinds, m, order[n - 1])
  }

  function SomeSum(kinds: seq<seq<int>>, order: seq<nat>, n: nat): nat
    requires n <= |order|
  {
    if n == 0 then 0 else SomeSum(kinds, order, n - 1) + One(Count(kinds, order[n - 1]) > 0)
  }

  function HolderSum(kinds: seq<seq<int>>, m: nat, order: seq<nat>, n: nat): nat
    requires m <= |kinds| && n <= |order|
  {
    if n == 0 then 0 else HolderSum(kinds, m, order, n - 1) + Holders(kinds, m, order[n - 1])
  }

  lemma {:induction false} SharedTotals(kinds: seq<seq<int>>, order: seq<nat>, n: nat)
    requires n <= |order|
    ensures Total(SharedBuckets(kinds, order, n)) == CountSum(kinds, |kinds|, order, n)
    ensures Length(SharedBuckets(kinds, order, n)) == SomeSum(kinds, order, n)
  {
    if n > 0 {
      SharedTotals(kinds, order, n - 1);
      AllPicksCount(kinds, |kinds|, order[n - 1]);
    }
  }

  /** Entries, and kinds with entries, of one subset. */
  function RowSum(row: seq<int>, order: seq<nat>, n: nat): nat
    requires n <= |order|
  {
    if n == 0 then 0 else RowSum(row, order, n - 1) + RowCount(row, |row|, order[n - 1])
  }

  function RowKinds(row: seq<int>, order: seq<nat>, n: nat): nat
    requires n <= |order|
  {
    if n == 0 then 0 else RowKinds(row, order, n - 1) + One(RowCount(row, |row|, order[n - 1]) > 0)
  }

  lemma {:induction false} OneTotals(bs: Buckets, row: seq<int>, s: nat, id: nat, order: seq<nat>, n: nat)
    requires n <= |order|
    ensures Total(OneSubset(bs, row, s, id, order, n)) == Total(bs) + RowSum(row, order, n)
    ensures Length(OneSubset(bs, row, s, id, order, n)) == Length(bs) + RowKinds(row, order, n)
  {
    if n > 0 {
      OneTotals(bs, row, s, id, order, n - 1);
      PicksCount(row, s, |row|, order[n - 1]);
    }
  }

  lemma {:induction false} SumsStep(kinds: seq<seq<int>>, m: nat, order: seq<nat>, n: nat)
    requires 0 < m <= |kinds| && n <= |order|
    ensures CountSum(kinds, m, order, n) == CountSum(kinds, m - 1, order, n) + RowSum(kinds[m - 1], order, n)
    ensures HolderSum(kinds, m, order, n) == HolderSum(kinds, m - 1, order, n) + RowKinds(kinds[m - 1], order, n)
  {
    if n > 0 {
      SumsStep(kinds, m, order, n - 1);
    }
  }

  lemma {:induction false} SumsOfNothing(kinds: seq<seq<int>>, order: seq<nat>, n: nat)
    requires n <= |order|
    ensures CountSum(kinds, 0, order, n) == 0 && HolderSum(kinds, 0, order, n) == 0
  {
    if n > 0 {
      SumsOfNothing(kinds, order, n - 1);
    }
  }

  lemma {:induction false} SubsetTotals(bs: Buckets, kinds: seq<seq<int>>, ids: seq<nat>, order: seq<nat>, m: nat)
    requires m <= |kinds| == |ids|
    ensures Total(SubsetBuckets(bs, kinds, ids, order, m)) == Total(bs) + CountSum(kinds, m, order, |order|)
    ensures Length(SubsetBuckets(bs, kinds, ids, order, m)) == Length(bs) + HolderSum(kinds, m, order, |order|)
  {
    if m == 0 {
      SumsOfNothing(kinds, order, |order|);
    } else {
      SubsetTotals(bs, kinds, ids, order, m - 1);
      OneTotals(SubsetBuckets(bs, kinds, ids, order, m - 1), kinds[m - 1], m - 1, ids[m - 1], order, |order|);
      SumsStep(kinds, m, order, |order|);
    }
  }

  lemma FourSums(kinds: seq<seq<int>>, m: nat, order: seq<nat>)
    requires m <= |kinds| && |order| == 4
    ensures CountSum(kinds, m, order, 4) ==
            AllCount(kinds, m, order[0]) + AllCount(kinds, m, order[1]) + AllCount(kinds, m, order[2])
            + AllCount(kinds, m, order[3])
    ensures HolderSum(kinds, m, order, 4) ==
            Holders(kinds, m, order[0]) + Holders(kinds, m, order[1]) + Holders(kinds, m, order[2])
            + Holders(kinds, m, order[3])
    ensures SomeSum(kinds, order, 4) ==
            One(Count(kinds, order[0]) > 0) + One(Count(kinds, order[1]) > 0) + One(Count(kinds, order[2]) > 0)
            + One(Count(kinds, order[3]) > 0)
  {
    assert CountSum(kinds, m, order, 2) == AllCount(kinds, m, order[0]) + AllCount(kinds, m, order[1]) by {
      assert CountSum(kinds, m, order, 1) == CountSum(kinds, m, order, 0) + AllCount(kinds, m, order[0]);
    }
    assert CountSum(kinds, m, order, 3) == CountSum(kinds, m, order, 2) + AllCount(kinds, m, order[2]);
    assert HolderSum(kinds, m, order, 2) == Holders(kinds, m, order[0]) + Holders(kinds, m, order[1]) by {
      assert HolderSum(kinds, m, order, 1) == HolderSum(kinds, m, order, 0) + Holders(kinds, m, order[0]);
    }
    assert HolderSum(kinds, m, order, 3) == HolderSum(kinds, m, order, 2) + Holders(kinds, m, order[2]);
    assert SomeSum(kinds, order, 2) == One(Count(kinds, order[0]) > 0) + One(Count(kinds, order[1]) > 0) by {
      assert SomeSum(kinds, order, 1) == SomeSum(kinds, order, 0) + One(Count(kinds, order[0]) > 0);
    }
    assert SomeSum(kinds, order, 3) == SomeSum(kinds, order, 2) + One(Count(kinds, order[2]) > 0);
  }

  /** Only buckets of the right grouping are counted. */
  lemma {:induction false} NoneOf(kinds: seq<seq<int>>, m: nat, t: nat, byProgress: bool)
    requires m <= |kinds| && Ready(kinds, byProgress) && !Proper(t, byProgress)
    ensures AllCount(kinds, m, t) == 0
  {
    if m > 0 {
      NoneOf(kinds, m - 1, t, byProgress);
      NoneInRow(kinds, m - 1, |kinds[m - 1]|, t, byProgress);
    }
  }

  lemma {:induction false} NoneInRow(kinds: seq<seq<int>>, s: nat, n: nat, t: nat, byProgress: bool)
    requires s < |kinds| && n <= |kinds[s]| && Ready(kinds, byProgress) && !Proper(t, byProgress)
    ensures RowCount(kinds[s], n, t) == 0
  {
    if n > 0 {
      NoneInRow(kinds, s, n - 1, t, byProgress);
    }
  }

  /** Rows other than `only` have nothing to list. */
  ghost predicate Single(kinds: seq<seq<int>>, only: nat) {
    forall s, i :: 0 <= s < |kinds| && 0 <= i < |kinds[s]| && s != only ==> kinds[s][i] == -1
  }

  lemma {:induction false} EmptyRow(kinds: seq<seq<int>>, only: nat, s: nat, n: nat, t: nat)
    requires Single(kinds, only) && s < |kinds| && s != only && n <= |kinds[s]|
    ensures RowCount(kinds[s], n, t) == 0
  {
    if n > 0 {
      EmptyRow(kinds, only, s, n - 1, t);
    }
  }

  /** With one active subset a kind has one bucket, or none. */
  lemma {:induction false} SingleHolder(kinds: seq<seq<int>>, only: nat, m: nat, t: nat)
    requires m <= |kinds| && Single(kinds, only)
    ensures Holders(kinds, m, t) == One(AllCount(kinds, m, t) > 0) && (m <= only ==> AllCount(kinds, m, t) == 0)
  {
    if m > 0 {
      SingleHolder(kinds, only, m - 1, t);
      if m - 1 != only {
        EmptyRow(kinds, only, m - 1, |kinds[m - 1]|, t);
      }
    }
  }

  lemma {:induction false} NoHolder(kinds: seq<seq<int>>, m: nat, t: nat)
    requires m <= |kinds| && AllCount(kinds, m, t) == 0
    ensures Holders(kinds, m, t) == 0
  {
    if m > 0 {
      NoHolder(kinds, m - 1, t);
    }
  }

  /** The second pass emits exactly the buckets and entries the first has counted. */
  lemma CountsAgree(kinds: seq<seq<int>>, ids: seq<nat>, byProgress: bool, multi: bool, only: nat)
    requires |kinds| == |ids| && Ready(kinds, byProgress) && (!multi ==> Single(kinds, only))
    ensures Total(TheList(kinds, ids, byProgress)) == NumAchievements(kinds, NUM_BUCKETS)
    ensures Length(TheList(kinds, ids, byProgress)) == NumBuckets(kinds, multi, NUM_BUCKETS)
  {
    OrdersCover(0);
    var shared := if byProgress then SharedBuckets(kinds, SHARED_ORDER, |SHARED_ORDER|) else Start;
    SubsetTotals(shared, kinds, ids, SUBSET_ORDER, |kinds|);
    FourSums(kinds, |kinds|, SUBSET_ORDER);
    NoneOf(kinds, |kinds|, 0, byProgress);
    if byProgress {
      SharedTotals(kinds, SHARED_ORDER, |SHARED_ORDER|);
      FourSums(kinds, |kinds|, SHARED_ORDER);
    } else {
      NoneOf(kinds, |kinds|, 5, byProgress);
      NoneOf(kinds, |kinds|, 6, byProgress);
      NoneOf(kinds, |kinds|, 7, byProgress);
      NoneOf(kinds, |kinds|, 8, byProgress);
    }
    SubsetKind(kinds, multi, only, 1);
    SubsetKind(kinds, multi, only, 2);
    SubsetKind(kinds, multi, only, 3);
    SubsetKind(kinds, multi, only, 4);
    AchievementsSum(kinds);
    BucketsSum(kinds, multi);
  }

  lemma SubsetKind(kinds: seq<seq<int>>, multi: bool, only: nat, t: nat)
    requires Proper(t, false) && (!multi ==> Single(kinds, only))
    ensures BucketsOf(kinds, multi, t) == Holders(kinds, |kinds|, t)
  {
    if Count(kinds, t) == 0 {
      NoHolder(kinds, |kinds|, t);
    } else if !multi {
      SingleHolder(kinds, only, |kinds|, t);
    }
  }

  lemma AchievementsSum(kinds: seq<seq<int>>)
    ensures NumAchievements(kinds, 9) ==
            Count(kinds, 0) + Count(kinds, 1) + Count(kinds, 2) + Count(kinds, 3) + Count(kinds, 4)
            + Count(kinds, 5) + Count(kinds, 6) + Count(kinds, 7) + Count(kinds, 8)
  {
    assert NumAchievements(kinds, 1) == Count(kinds, 0);
    assert NumAchievements(kinds, 2) == NumAchievements(kinds, 1) + Count(kinds, 1);
    assert NumAchievements(kinds, 3) == NumAchievements(kinds, 2) + Count(kinds, 2);
    assert NumAchievements(kinds, 4) == NumAchievements(kinds, 3) + Count(kinds, 3);
    assert NumAchievements(kinds, 5) == NumAchievements(kinds, 4) + Count(kinds, 4);
    assert NumAchievements(kinds, 6) == NumAchievements(kinds, 5) + Count(kinds, 5);
    assert NumAchievements(kinds, 7) == NumAchievements(kinds, 6) + Count(kinds, 6);
    assert NumAchievements(kinds, 8) == NumAchievements(kinds, 7) + Count(kinds, 7);
  }

  lemma BucketsSum(kinds: seq<seq<int>>, multi: bool)
    ensures NumBuckets(kinds, multi, 9) ==
            BucketsOf(kinds, multi, 0) + BucketsOf(kinds, multi, 1) + BucketsOf(kinds, multi, 2)
            + BucketsOf(kinds, multi, 3) + BucketsOf(kinds, multi, 4) + BucketsOf(kinds, multi, 5)
            + BucketsOf(kinds, multi, 6)
            + BucketsOf(kinds, multi, 7) + BucketsOf(kinds, multi, 8)
  {
    assert NumBuckets(kinds, multi, 1) == BucketsOf(kinds, multi, 0);
    assert NumBuckets(kinds, multi, 2) == NumBuckets(kinds, multi, 1) + BucketsOf(kinds, multi, 1);
    assert NumBuckets(kinds, multi, 3) == NumBuckets(kinds, multi, 2) + BucketsOf(kinds, multi, 2);
    assert NumBuckets(kinds, multi, 4) == NumBuckets(kinds, multi, 3) + BucketsOf(kinds, multi, 3);
    assert NumBuckets(kinds, multi, 5) == NumBuckets(kinds, multi, 4) + BucketsOf(kinds, multi, 4);
    assert NumBuckets(kinds, multi, 6) == NumBuckets(kinds, multi, 5) + BucketsOf(kinds, multi, 5);
    assert NumBuckets(kinds, multi, 7) == NumBuckets(kinds, multi, 6) + BucketsOf(kinds, multi, 6);
    assert NumBuckets(kinds, multi, 8) == NumBuckets(kinds, multi, 7) + BucketsOf(kinds, multi, 7);
  }

  // ---------------------------------------------------------------- the two passes

  function Refreshed(sub: Subset, q: Query): (r: Subset)
    ensures r.active == sub.active && r.id == sub.id && |r.items| == |sub.items|
    ensures forall i :: 0 <= i < |sub.items| ==>
              r.items[i] == if sub.active && Wanted(sub.items[i], q) then Updated(sub.items[i], q) else sub.items[i]
  {
    sub.(items := seq(|sub.items|, i requires 0 <= i < |sub.items| =>
      if sub.active && Wanted(sub.items[i], q) then Updated(sub.items[i], q) else sub.items[i]))
  }

  function RefreshedAll(subsets: seq<Subset>, q: Query): (r: seq<Subset>)
    ensures |r| == |subsets| && forall s :: 0 <= s < |subsets| ==> r[s] == Refreshed(subsets[s], q)
  {
    seq(|subsets|, s requires 0 <= s < |subsets| => Refreshed(subsets[s], q))
  }

  function ActiveCount(subsets: seq<Subset>, m: nat): (n: nat)
    requires m <= |subsets|
    ensures n <= m
  {
    if m == 0 then 0 else ActiveCount(subsets, m - 1) + One(subsets[m - 1].active)
  }

  /** bucket->subset_id: 0 if there is only one subset. */
  function Ids(subsets: seq<Subset>, multi: bool): (ids: seq<nat>)
    ensures |ids| == |subsets| && forall s :: 0 <= s < |subsets| ==> ids[s] == if multi then subsets[s].id else 0
  {
    seq(|subsets|, s requires 0 <= s < |subsets| => if multi then subsets[s].id else 0)
  }

  lemma RefreshedIsReady(subsets: seq<Subset>, q: Query)
    ensures Ready(Kinds(RefreshedAll(subsets, q), q), q.byProgress)
  {
    var after := RefreshedAll(subsets, q);
    var kinds := Kinds(after, q);
    forall s, i | 0 <= s < |kinds| && 0 <= i < |kinds[s]| && kinds[s][i] != -1
      ensures Proper(kinds[s][i], q.byProgress)
    {
      assert after[s] == Refreshed(subsets[s], q);
      assert kinds[s][i] == KindOf(after[s], i, q);
    }
  }

  /** With at most one active subset, every other row is empty. */
  lemma {:induction false} OnlyOne(subsets: seq<Subset>, m: nat, q: Query) returns (only: nat)
    requires m <= |subsets| && ActiveCount(subsets, m) <= 1
    ensures forall s :: 0 <= s < m && s != only ==> !subsets[s].active
    ensures ActiveCount(subsets, m) == 0 ==> forall s :: 0 <= s < m ==> !subsets[s].active
  {
    only := 0;
    if m > 0 {
      only := OnlyOne(subsets, m - 1, q);
      if subsets[m - 1].active {
        only := m - 1;
      }
    }
  }

  /** One subset of the first pass: bring its achievements up to date and count them. */
  method RefreshSubset(sub: Subset, q: Query, counts: array<nat>) returns (after: Subset)
    requires counts.Length == NUM_BUCKETS
    modifies counts
    ensures after == Refreshed(sub, q)
    ensures forall t :: 0 <= t < NUM_BUCKETS ==>
              counts[t] == old(counts[t]) + RowCount(Kinds([after], q)[0], |sub.items|, t)
  {
    hide Updated, Wanted, Kinds;
    ghost var goal := Refreshed(sub, q);
    ghost var row := Kinds([goal], q)[0];
    after := sub;
    if !sub.active {
      InactiveRow(goal, q, |sub.items|);
      assert after.items == goal.items;
      return;
    }
    var i := 0;
    while i < |sub.items|
      invariant 0 <= i <= |sub.items| && |after.items| == |sub.items| && after == sub.(items := after.items)
      invariant forall k :: 0 <= k < |sub.items| ==> after.items[k] == if k < i then goal.items[k] else sub.items[k]
      invariant forall t :: 0 <= t < NUM_BUCKETS ==> counts[t] == old(counts[t]) + RowCount(row, i, t)
    {
      assert row[i] == KindOf(goal, i, q);
      if Wanted(after.items[i], q) {
        var a := Updated(after.items[i], q);
        after := after.(items := after.items[i := a]);
        var kind := Mapped(a.bucket, q);
        counts[kind] := counts[kind] + 1;
      }
      i := i + 1;
    }
    assert after.items == goal.items;
  }

  lemma {:induction false} InactiveRow(sub: Subset, q: Query, n: nat)
    requires !sub.active && n <= |sub.items|
    ensures forall t: nat :: RowCount(Kinds([sub], q)[0], n, t) == 0
  {
    if n > 0 {
      InactiveRow(sub, q, n - 1);
      assert Kinds([sub], q)[0][n - 1] == KindOf(sub, n - 1, q);
    }
  }

  lemma RowOfKinds(subsets: seq<Subset>, s: nat, q: Query)
    requires s < |subsets|
    ensures Kinds(subsets, q)[s] == Kinds([subsets[s]], q)[0]
  {
    var a, b := Kinds(subsets, q)[s], Kinds([subsets[s]], q)[0];
    forall i | 0 <= i < |a| ensures a[i] == b[i] {
      assert a[i] == KindOf(subsets[s], i, q) && b[i] == KindOf([subsets[s]][0], i, q);
    }
  }

  /** The first pass. */
  method Refresh(subsets: array<Subset>, q: Query) returns (counts: array<nat>, numSubsets: nat)
    modifies subsets
    ensures subsets[..] == RefreshedAll(old(subsets[..]), q) && numSubsets == ActiveCount(subsets[..], subsets.Length)
    ensures fresh(counts) && counts.Length == NUM_BUCKETS
    ensures forall t :: 0 <= t < NUM_BUCKETS ==> counts[t] == Count(Kinds(subsets[..], q), t)
  {
    hide RowCount, Refreshed, KindOf, Kinds;
    ghost var goal := RefreshedAll(subsets[..], q);
    ghost var kinds := Kinds(goal, q);
    counts := new nat[NUM_BUCKETS](i => 0);
    numSubsets := 0;
    var s := 0;
    while s < subsets.Length
      invariant 0 <= s <= subsets.Length && numSubsets == ActiveCount(goal, s)
      invariant forall k :: 0 <= k < subsets.Length ==> subsets[k] == if k < s then goal[k] else old(subsets[k])
      invariant forall t :: 0 <= t < NUM_BUCKETS ==> counts[t] == AllCount(kinds, s, t)
    {
      if subsets[s].active {
        numSubsets := numSubsets + 1;
      }
      var after := RefreshSubset(subsets[s], q, counts);
      RowOfKinds(goal, s, q);
      subsets[s] := after;
      s := s + 1;
    }
    assert subsets[..] == goal;
  }

  /** The count of the buckets between the passes. */
  method CountBuckets(subsets: seq<Subset>, q: Query, counts: array<nat>, multi: bool)
    returns (numBuckets: nat, numAchievements: nat)
    requires counts.Length == NUM_BUCKETS
    requires forall t :: 0 <= t < NUM_BUCKETS ==> counts[t] == Count(Kinds(subsets, q), t)
    ensures numAchievements == NumAchievements(Kinds(subsets, q), NUM_BUCKETS)
    ensures numBuckets == NumBuckets(Kinds(subsets, q), multi, NUM_BUCKETS)
  {
    numBuckets, numAchievements := 0, 0;
    for t := 0 to NUM_BUCKETS
      invariant numAchievements == NumAchievements(Kinds(subsets, q), t)
      invariant numBuckets == NumBuckets(Kinds(subsets, q), multi, t)
    {
      if counts[t] > 0 {
        numAchievements := numAchievements + counts[t];
        if multi && (t == LOCKED || t == UNOFFICIAL || t == UNSUPPORTED || t == UNLOCKED) {
          var holders := CountHolders(subsets, q, t);
          numBuckets := numBuckets + holders;
        } else {
          numBuckets := numBuckets + 1;
        }
      }
    }
  }

  method CountHolders(subsets: seq<Subset>, q: Query, t: nat) returns (n: nat)
    ensures n == Holders(Kinds(subsets, q), |subsets|, t)
  {
    n := 0;
    for s := 0 to |subsets|
      invariant n == Holders(Kinds(subsets, q), s, t)
    {
      ghost var row := Kinds(subsets, q)[s];
      var i, found := 0, false;
      while i < |subsets[s].items| && !found
        invariant 0 <= i <= |subsets[s].items| && (found <==> RowCount(row, i, t) > 0)
        decreases |subsets[s].items| - i
      {
        assert row[i] == KindOf(subsets[s], i, q);
        found := KindOf(subsets[s], i, q) == t;
        i := i + 1;
      }
      CountGrows(row, i, |row|, t);
      if found {
        n := n + 1;
      }
    }
  }

  lemma {:induction false} CountGrows(row: seq<int>, i: nat, n: nat, t: nat)
    requires i <= n <= |row|
    ensures RowCount(row, i, t) <= RowCount(row, n, t)
    decreases n - i
  {
    if i < n {
      CountGrows(row, i, n - 1, t);
    }
  }

  /** The inner loop of the second pass: the achievements of one subset that go to bucket t. */
  method PickSubset(subsets: seq<Subset>, s: nat, q: Query, t: nat) returns (items: seq<Pointer>)
    requires s < |subsets|
    ensures items == Picks(Kinds(subsets, q)[s], s, |subsets[s].items|, t)
  {
    items := [];
    for i := 0 to |subsets[s].items|
      invariant items == Picks(Kinds(subsets, q)[s], s, i, t)
    {
      assert Kinds(subsets, q)[s][i] == KindOf(subsets[s], i, q);
      if KindOf(subsets[s], i, q) == t {
        items := items + [Pointer(s, i)];
      }
    }
  }

  // ---------------------------------------------------------------- the order inside buckets

  ghost predicate Points(subsets: seq<Subset>, p: Pointer) {
    p.subset < |subsets| && p.index < |subsets[p.subset].items|
  }

  ghost predicate AllPoint(subsets: seq<Subset>, items: seq<Pointer>) {
    forall i :: 0 <= i < |items| ==> Points(subsets, items[i])
  }

  /** The two comparison functions: a may stand in front of b. Recent unlocks come latest first, achievements that are
      almost there by progress and then by id. */
  predicate NotBehind(kind: nat, a: Achievement, b: Achievement) {
    if kind == RECENTLY_UNLOCKED then b.unlockTime <= a.unlockTime
    else b.percent < a.percent || (b.percent == a.percent && a.id <= b.id)
  }

  function Of(subsets: seq<Subset>, p: Pointer): Achievement
    requires Points(subsets, p)
  {
    subsets[p.subset].items[p.index]
  }

  ghost predicate InOrder(subsets: seq<Subset>, kind: nat, items: seq<Pointer>)
    requires AllPoint(subsets, items)
  {
    forall i, j :: 0 <= i < j < |items| ==> NotBehind(kind, Of(subsets, items[i]), Of(subsets, items[j]))
  }

  predicate IsSorted(kind: nat) {
    kind == RECENTLY_UNLOCKED || kind == ALMOST_THERE
  }

  function Insert(subsets: seq<Subset>, kind: nat, p: Pointer, items: seq<Pointer>): (r: seq<Pointer>)
    requires Points(subsets, p) && AllPoint(subsets, items)
    ensures multiset(r) == multiset(items) + multiset{p}
  {
    if items == [] || NotBehind(kind, Of(subsets, p), Of(subsets, items[0])) then [p] + items
    else
      assert items == [items[0]] + items[1..];
      [items[0]] + Insert(subsets, kind, p, items[1..])
  }

  lemma {:induction false} InsertOrdered(subsets: seq<Subset>, kind: nat, p: Pointer, items: seq<Pointer>)
    requires Points(subsets, p) && AllPoint(subsets, items) && InOrder(subsets, kind, items)
    ensures AllPoint(subsets, Insert(subsets, kind, p, items))
    ensures InOrder(subsets, kind, Insert(subsets, kind, p, items))
  {
    if items != [] && !NotBehind(kind, Of(subsets, p), Of(subsets, items[0])) {
      InsertOrdered(subsets, kind, p, items[1..]);
      var rest := Insert(subsets, kind, p, items[1..]);
      forall j | 0 <= j < |rest| ensures NotBehind(kind, Of(subsets, items[0]), Of(subsets, rest[j])) {
        assert rest[j] in multiset(rest);
        if rest[j] != p {
          assert rest[j] in multiset(items[1..]);
          var k :| 0 <= k < |items[1..]| && items[1..][k] == rest[j];
          assert items[k + 1] == rest[j];
        }
      }
    }
  }

  /** Stands for qsort: all that is used of it is that the result is ordered and holds the same pointers. */
  method Sort(subsets: seq<Subset>, kind: nat, items: seq<Pointer>) returns (r: seq<Pointer>)
    requires AllPoint(subsets, items)
    ensures multiset(r) == multiset(items) && AllPoint(subsets, r) && InOrder(subsets, kind, r)
  {
    r := [];
    for i := 0 to |items|
      invariant multiset(r) == multiset(items[..i]) && AllPoint(subsets, r) && InOrder(subsets, kind, r)
    {
      InsertOrdered(subsets, kind, items[i], r);
      r := Insert(subsets, kind, items[i], r);
      assert items[..i + 1] == items[..i] + [items[i]];
    }
    assert items[..|items|] == items;
  }

  /** A bucket as it is handed out: the same pointers, in order if its kind is sorted. */
  ghost predicate ArrangedBucket(b: Bucket, plain: Bucket, subsets: seq<Subset>) {
    && b.subset == plain.subset && b.kind == plain.kind && multiset(b.items) == multiset(plain.items)
    && if IsSorted(b.kind) then AllPoint(subsets, b.items) && InOrder(subsets, b.kind, b.items)
       else b.items == plain.items
  }

  ghost predicate Arranged(bs: Buckets, plain: Buckets, subsets: seq<Subset>) {
    match bs
    case Start => plain.Start?
    case Add(front, last) =>
      plain.Add? && Arranged(front, plain.front, subsets) && ArrangedBucket(last, plain.last, subsets)
  }

  /** Sorting moves no entry to another bucket and loses none. */
  lemma {:induction false} ArrangedKeeps(bs: Buckets, plain: Buckets, subsets: seq<Subset>, kinds: seq<seq<int>>,
          p: Pointer)
    requires Arranged(bs, plain, subsets)
    ensures Length(bs) == Length(plain) && Total(bs) == Total(plain) && Listed(bs, p) == Listed(plain, p)
    ensures Sound(plain, kinds) ==> Sound(bs, kinds)
  {
    if bs.Add? {
      ArrangedKeeps(bs.front, plain.front, subsets, kinds, p);
      assert |multiset(bs.last.items)| == |bs.last.items| && |multiset(plain.last.items)| == |plain.last.items|;
      if Sound(plain, kinds) {
        forall i | 0 <= i < |bs.last.items| ensures At(kinds, bs.last.items[i]) == bs.last.kind {
          assert bs.last.items[i] in multiset(plain.last.items);
        }
      }
    }
  }

  lemma {:induction false} ArrangedOne(bs: Buckets, plain: Buckets, subsets: seq<Subset>, row: seq<int>, s: nat,
          id: nat, order: seq<nat>, n: nat)
    requires n <= |order| && Arranged(bs, plain, subsets) && forall i :: 0 <= i < |order| ==> !IsSorted(order[i])
    ensures Arranged(OneSubset(bs, row, s, id, order, n), OneSubset(plain, row, s, id, order, n), subsets)
  {
    if n > 0 {
      ArrangedOne(bs, plain, subsets, row, s, id, order, n - 1);
    }
  }

  lemma {:induction false} ArrangedSubsets(bs: Buckets, plain: Buckets, subsets: seq<Subset>, kinds: seq<seq<int>>,
          ids: seq<nat>, order: seq<nat>, m: nat)
    requires m <= |kinds| == |ids| && Arranged(bs, plain, subsets)
    requires forall i :: 0 <= i < |order| ==> !IsSorted(order[i])
    ensures Arranged(SubsetBuckets(bs, kinds, ids, order, m), SubsetBuckets(plain, kinds, ids, order, m), subsets)
  {
    if m > 0 {
      ArrangedSubsets(bs, plain, subsets, kinds, ids, order, m - 1);
      ArrangedOne(SubsetBuckets(bs, kinds, ids, order, m - 1), SubsetBuckets(plain, kinds, ids, order, m - 1), subsets,
        kinds[m - 1], m - 1, ids[m - 1], order, |order|);
    }
  }

  lemma PicksPoint(subsets: seq<Subset>, q: Query, t: nat)
    ensures AllPoint(subsets, AllPicks(Kinds(subsets, q), |subsets|, t))
  {
    AllPicksBelong(Kinds(subsets, q), t);
  }

  /** The part of the second pass shared by all subsets. */
  method FillShared(subsets: seq<Subset>, q: Query) returns (list: Buckets)
    ensures Arranged(list, SharedBuckets(Kinds(subsets, q), SHARED_ORDER, |SHARED_ORDER|), subsets)
  {
    list := Start;
    for k := 0 to |SHARED_ORDER|
      invariant Arranged(list, SharedBuckets(Kinds(subsets, q), SHARED_ORDER, k), subsets)
    {
      var items := PickAll(subsets, q, SHARED_ORDER[k]);
      ghost var plain := items;
      if IsSorted(SHARED_ORDER[k]) {
        PicksPoint(subsets, q, SHARED_ORDER[k]);
        items := Sort(subsets, SHARED_ORDER[k], items);
      }
      SameLength(items, plain);
      list := Grow(list, 0, SHARED_ORDER[k], items);
    }
  }

  lemma SameLength(a: seq<Pointer>, b: seq<Pointer>)
    requires multiset(a) == multiset(b)
    ensures |a| == |b|
  {
    assert |multiset(a)| == |a| && |multiset(b)| == |b|;
  }

  method PickAll(subsets: seq<Subset>, q: Query, t: nat) returns (items: seq<Pointer>)
    ensures items == AllPicks(Kinds(subsets, q), |subsets|, t)
  {
    items := [];
    for s := 0 to |subsets|
      invariant items == AllPicks(Kinds(subsets, q), s, t)
    {
      var more := PickSubset(subsets, s, q, t);
      items := items + more;
    }
  }

  /** The part of the second pass that goes subset by subset. */
  method FillSubsets(subsets: seq<Subset>, q: Query, multi: bool, shared: Buckets) returns (list: Buckets)
    ensures list == SubsetBuckets(shared, Kinds(subsets, q), Ids(subsets, multi), SUBSET_ORDER, |subsets|)
  {
    list := shared;
    for s := 0 to |subsets|
      invariant list == SubsetBuckets(shared, Kinds(subsets, q), Ids(subsets, multi), SUBSET_ORDER, s)
    {
      ghost var before := list;
      var id := if multi then subsets[s].id else 0;
      for k := 0 to |SUBSET_ORDER|
        invariant list == OneSubset(before, Kinds(subsets, q)[s], s, id, SUBSET_ORDER, k)
      {
        var items := PickSubset(subsets, s, q, SUBSET_ORDER[k]);
        list := Grow(list, id, SUBSET_ORDER[k], items);
      }
    }
  }

  // ---------------------------------------------------------------- the list in terms of the achievements' own fields

  /** p points at an achievement of an active subset and of an asked category. */
  ghost predicate Shown(subsets: seq<Subset>, q: Query, p: Pointer) {
    && p.subset < |subsets| && p.index < |subsets[p.subset].items| && subsets[p.subset].active
    && var a := subsets[p.subset].items[p.index]; (a.core && q.core) || (a.unofficial && q.unofficial)
  }

  /** Measured at 80 percent of its target or more; without a target or a value, what was known before counts. */
  ghost predicate NearTarget(a: Achievement) {
    match a.measured
    case Progress(value, target) => if target == 0 then a.percent >= 80.0 else 10 * value >= 8 * target
    case _ => a.percent >= 80.0
  }

  /** Whether an achievement that was in this state before the call is listed in a bucket of that kind. */
  ghost predicate Fits(kind: nat, a: Achievement, q: Query) {
    var unlocked, locked := a.bucket != UNSUPPORTED && a.unlocked, a.bucket != UNSUPPORTED && !a.unlocked;
    var recent, unsynced := a.unlockTime >= q.recent, q.disconnected && a.waiting;
    var primed, near := a.trigger && a.primed, a.trigger && NearTarget(a);
    var unofficial := a.unofficial && !a.core;
    if q.byProgress then
      && (kind == RECENTLY_UNLOCKED <==> unlocked && recent)
      && (kind == UNSYNCED <==> unlocked && !recent && unsynced)
      && (kind == UNLOCKED <==> unlocked && !recent && !unsynced)
      && (kind == ACTIVE_CHALLENGE <==> locked && primed)
      && (kind == ALMOST_THERE <==> locked && !primed && near)
      && (kind == UNOFFICIAL <==> locked && !primed && !near && unofficial)
      && (kind == LOCKED <==> locked && !primed && !near && !unofficial)
      && (kind == UNSUPPORTED <==> a.bucket == UNSUPPORTED)
    else
      && (kind == UNLOCKED <==> unlocked)
      && (kind == UNOFFICIAL <==> locked && !primed && !near && unofficial)
      && (kind == LOCKED <==> locked && (primed || near || !unofficial))
      && (kind == UNSUPPORTED <==> a.bucket == UNSUPPORTED)
  }

  /** What the call leaves of an achievement that is listed: its bucket and its percentage are up to date. */
  ghost predicate UpToDate(now: Achievement, a: Achievement, q: Query) {
    && now == a.(bucket := now.bucket, percent := now.percent)
    && Fits(now.bucket, a, q.(byProgress := true))
    && if a.bucket != UNSUPPORTED && !a.unlocked && a.trigger && a.measured.Progress? && a.measured.target != 0 then
         now.percent * a.measured.target as real ==
           100.0 * (if a.measured.value < a.measured.target then a.measured.value else a.measured.target) as real
       else now.percent == a.percent
  }

  ghost predicate InBucket(bs: Buckets, kind: nat, p: Pointer) {
    match bs
    case Start => false
    case Add(front, last) => (last.kind == kind && p in last.items) || InBucket(front, kind, p)
  }

  /** The place of a kind: first the shared buckets, then those of each subset. */
  ghost function Rank(kind: nat): nat {
    match kind
    case 6 => 0 case 5 => 1 case 7 => 2 case 8 => 3
    case 1 => 0 case 4 => 1 case 3 => 2 case _ => 3
  }

  ghost predicate SharedKind(kind: nat) {
    kind == ACTIVE_CHALLENGE || kind == RECENTLY_UNLOCKED || kind == ALMOST_THERE || kind == UNSYNCED
  }

  /** 0 for a shared bucket, the subset behind that for another. */
  ghost function Place(b: Bucket): nat {
    if SharedKind(b.kind) || b.items == [] then 0 else b.items[0].subset + 1
  }

  ghost predicate InFront(bs: Buckets, place: nat, rank: nat) {
    match bs
    case Start => true
    case Add(front, last) =>
      && InFront(front, place, rank)
      && (Place(last) < place || (Place(last) == place && Rank(last.kind) < rank))
  }

  ghost predicate Ascending(items: seq<Pointer>) {
    forall i, j :: 0 <= i < j < |items| ==>
      items[i].subset < items[j].subset || (items[i].subset == items[j].subset && items[i].index < items[j].index)
  }

  ghost predicate Several(subsets: seq<Subset>) {
    exists s, t :: 0 <= s < t < |subsets| && subsets[s].active && subsets[t].active
  }

  /** A bucket that is not shared lists one subset only, and carries its id if there are several. */
  ghost predicate OfOneSubset(b: Bucket, subsets: seq<Subset>) {
    && (forall i :: 0 <= i < |b.items| ==> b.items[i].subset == b.items[0].subset < |subsets|)
    && (b.items != [] ==> b.subset == if Several(subsets) then subsets[b.items[0].subset].id else 0)
  }

  /** The buckets stand in their order, none is empty, and each lists its entries in the order of the game unless it is
      one of the two sorted ones. */
  ghost predicate WellPlaced(bs: Buckets, subsets: seq<Subset>) {
    match bs
    case Start => true
    case Add(front, last) =>
      && WellPlaced(front, subsets) && last.items != [] && InFront(front, Place(last), Rank(last.kind))
      && (if SharedKind(last.kind) then last.subset == 0 else OfOneSubset(last, subsets))
      && (last.kind != RECENTLY_UNLOCKED && last.kind != ALMOST_THERE ==> Ascending(last.items))
  }

  /** Recent unlocks stand latest first, achievements almost there by progress and then by id. */
  ghost predicate WellSorted(bs: Buckets, subsets: seq<Subset>) {
    match bs
    case Start => true
    case Add(front, last) =>
      && WellSorted(front, subsets)
      && (last.kind == RECENTLY_UNLOCKED || last.kind == ALMOST_THERE ==> AllPoint(subsets, last.items))
      && (last.kind == RECENTLY_UNLOCKED ==>
            forall i, j :: 0 <= i < j < |last.items| ==>
              Of(subsets, last.items[i]).unlockTime >= Of(subsets, last.items[j]).unlockTime)
      && (last.kind == ALMOST_THERE ==>
            forall i, j :: 0 <= i < j < |last.items| ==>
              var a, b := Of(subsets, last.items[i]), Of(subsets, last.items[j]);
              a.percent > b.percent || (a.percent == b.percent && a.id <= b.id))
  }

  lemma PercentIsNear(a: Achievement)
    ensures a.trigger ==> (Percent(a) >= 80.0 <==> NearTarget(a))
  {
    if a.trigger && a.measured.Progress? && a.measured.target != 0 {
      var value, target := a.measured.value, a.measured.target;
      var v := if value > target then target else value;
      Fraction(v as real, target as real);
      assert v as real * 100.0 >= 80.0 * target as real <==> 10 * v >= 8 * target;
    }
  }

  lemma UpdatedIsUpToDate(a: Achievement, q: Query)
    ensures UpToDate(Updated(a, q), a, q)
  {
    BucketFits(a, q.(byProgress := true), Updated(a, q).bucket);
    hide Fits;
  }

  /** Exactly the listed achievements are brought up to date. */
  ghost predicate AllUpToDate(now: seq<Subset>, subsets: seq<Subset>, q: Query) {
    && |now| == |subsets|
    && forall s :: 0 <= s < |subsets| ==>
         && |now[s].items| == |subsets[s].items| && now[s] == subsets[s].(items := now[s].items)
         && forall i :: 0 <= i < |subsets[s].items| ==>
              if Shown(subsets, q, Pointer(s, i)) then UpToDate(now[s].items[i], subsets[s].items[i], q)
              else now[s].items[i] == subsets[s].items[i]
  }

  lemma RefreshedIsUpToDate(subsets: seq<Subset>, q: Query)
    ensures AllUpToDate(RefreshedAll(subsets, q), subsets, q)
  {
    hide UpToDate, Updated;
    var now := RefreshedAll(subsets, q);
    forall s, i | 0 <= s < |subsets| && 0 <= i < |subsets[s].items|
      ensures if Shown(subsets, q, Pointer(s, i)) then UpToDate(now[s].items[i], subsets[s].items[i], q)
              else now[s].items[i] == subsets[s].items[i]
    {
      UpdatedIsUpToDate(subsets[s].items[i], q);
      assert now[s] == Refreshed(subsets[s], q);
    }
    forall s | 0 <= s < |subsets| ensures now[s] == subsets[s].(items := now[s].items) {
      assert now[s] == Refreshed(subsets[s], q);
    }
  }

  lemma Fraction(v: real, t: real)
    requires t > 0.0
    ensures v * 100.0 / t >= 80.0 <==> v * 100.0 >= 80.0 * t
  {
    var x := v * 100.0 / t;
    assert x * t == v * 100.0;
    if x >= 80.0 {
      assert (x - 80.0) * t >= 0.0;
    } else {
      assert (80.0 - x) * t > 0.0;
    }
  }

  lemma BucketFits(a: Achievement, q: Query, kind: nat)
    ensures Mapped(Updated(a, q).bucket, q) == kind <==> Fits(kind, a, q)
  {
    hide Percent;
    PercentIsNear(a);
  }

  /** The bucket after the update, by the fields in front of it. */
  lemma KindFits(subsets: seq<Subset>, q: Query, p: Pointer, kind: nat)
    ensures var k := At(Kinds(RefreshedAll(subsets, q), q), p);
            && (k == kind <==> Shown(subsets, q, p) && Fits(kind, subsets[p.subset].items[p.index], q))
            && (k != -1 <==> Shown(subsets, q, p))
  {
    hide Fits, Updated, Mapped;
    var after := RefreshedAll(subsets, q);
    if p.subset < |subsets| && p.index < |subsets[p.subset].items| {
      var a := subsets[p.subset].items[p.index];
      BucketFits(a, q, kind);
      assert after[p.subset] == Refreshed(subsets[p.subset], q);
      assert Kinds(after, q)[p.subset][p.index] == KindOf(after[p.subset], p.index, q);
    }
  }

  lemma {:induction false} ListedInBucket(bs: Buckets, kinds: seq<seq<int>>, p: Pointer)
    requires Sound(bs, kinds)
    ensures forall kind :: InBucket(bs, kind, p) ==> At(kinds, p) == kind
    ensures Listed(bs, p) > 0 ==> At(kinds, p) >= 0 && InBucket(bs, At(kinds, p), p)
  {
    if bs.Add? {
      ListedInBucket(bs.front, kinds, p);
      if p in bs.last.items {
        var i :| 0 <= i < |bs.last.items| && bs.last.items[i] == p;
        assert At(kinds, bs.last.items[i]) == bs.last.kind;
      }
      assert multiset(bs.last.items)[p] > 0 <==> p in bs.last.items;
    }
  }

  // ---------------------------------------------------------------- the order of the list

  lemma {:induction false} FrontMoves(bs: Buckets, place: nat, rank: nat, place': nat, rank': nat)
    requires InFront(bs, place, rank) && (place < place' || (place == place' && rank <= rank'))
    ensures InFront(bs, place', rank')
  {
    if bs.Add? {
      FrontMoves(bs.front, place, rank, place', rank');
    }
  }

  lemma {:induction false} PicksAscend(row: seq<int>, s: nat, n: nat, t: nat)
    requires n <= |row|
    ensures Ascending(Picks(row, s, n, t))
    ensures forall i :: 0 <= i < |Picks(row, s, n, t)| ==>
              Picks(row, s, n, t)[i].subset == s && Picks(row, s, n, t)[i].index < n
  {
    if n > 0 {
      PicksAscend(row, s, n - 1, t);
    }
  }

  lemma {:induction false} AllPicksAscend(kinds: seq<seq<int>>, m: nat, t: nat)
    requires m <= |kinds|
    ensures Ascending(AllPicks(kinds, m, t))
    ensures forall i :: 0 <= i < |AllPicks(kinds, m, t)| ==> AllPicks(kinds, m, t)[i].subset < m
  {
    if m > 0 {
      AllPicksAscend(kinds, m - 1, t);
      PicksAscend(kinds[m - 1], m - 1, |kinds[m - 1]|, t);
    }
  }

  /** The same as for the finished list, but before any bucket is sorted. */
  ghost predicate PlainlyPlaced(bs: Buckets, subsets: seq<Subset>) {
    match bs
    case Start => true
    case Add(front, last) =>
      && PlainlyPlaced(front, subsets) && last.items != [] && InFront(front, Place(last), Rank(last.kind))
      && (if SharedKind(last.kind) then last.subset == 0 else OfOneSubset(last, subsets))
      && Ascending(last.items)
  }

  lemma {:induction false} SharedPlaced(kinds: seq<seq<int>>, subsets: seq<Subset>, n: nat)
    requires n <= |SHARED_ORDER|
    ensures PlainlyPlaced(SharedBuckets(kinds, SHARED_ORDER, n), subsets)
    ensures InFront(SharedBuckets(kinds, SHARED_ORDER, n), 0, n)
  {
    if n > 0 {
      SharedPlaced(kinds, subsets, n - 1);
      AllPicksAscend(kinds, |kinds|, SHARED_ORDER[n - 1]);
      FrontMoves(SharedBuckets(kinds, SHARED_ORDER, n - 1), 0, n - 1, 0, n);
      RankOfOrder(n - 1);
    }
  }

  lemma RankOfOrder(n: nat)
    requires n < 4
    ensures |SHARED_ORDER| == |SUBSET_ORDER| == 4
    ensures SharedKind(SHARED_ORDER[n]) && Rank(SHARED_ORDER[n]) == n
    ensures !SharedKind(SUBSET_ORDER[n]) && Rank(SUBSET_ORDER[n]) == n
  {
    assert SUBSET_ORDER[0] == 1 && SUBSET_ORDER[1] == 4 && SUBSET_ORDER[2] == 3 && SUBSET_ORDER[3] == 2;
    assert SHARED_ORDER[0] == 6 && SHARED_ORDER[1] == 5 && SHARED_ORDER[2] == 7 && SHARED_ORDER[3] == 8;
  }

  lemma {:induction false} OnePlaced(bs: Buckets, row: seq<int>, s: nat, id: nat, n: nat, subsets: seq<Subset>)
    requires n <= |SUBSET_ORDER| && s < |subsets| && id == if Several(subsets) then subsets[s].id else 0
    requires PlainlyPlaced(bs, subsets) && InFront(bs, s + 1, 0)
    ensures PlainlyPlaced(OneSubset(bs, row, s, id, SUBSET_ORDER, n), subsets)
    ensures InFront(OneSubset(bs, row, s, id, SUBSET_ORDER, n), s + 1, n)
  {
    if n > 0 {
      OnePlaced(bs, row, s, id, n - 1, subsets);
      PicksAscend(row, s, |row|, SUBSET_ORDER[n - 1]);
      FrontMoves(OneSubset(bs, row, s, id, SUBSET_ORDER, n - 1), s + 1, n - 1, s + 1, n);
      RankOfOrder(n - 1);
    }
  }

  lemma {:induction false} SubsetsPlaced(bs: Buckets, kinds: seq<seq<int>>, ids: seq<nat>, m: nat, subsets: seq<Subset>)
    requires m <= |kinds| == |ids| == |subsets|
    requires forall s :: 0 <= s < |ids| ==> ids[s] == if Several(subsets) then subsets[s].id else 0
    requires PlainlyPlaced(bs, subsets) && InFront(bs, 1, 0)
    ensures PlainlyPlaced(SubsetBuckets(bs, kinds, ids, SUBSET_ORDER, m), subsets)
    ensures InFront(SubsetBuckets(bs, kinds, ids, SUBSET_ORDER, m), m + 1, 0)
  {
    if m > 0 {
      SubsetsPlaced(bs, kinds, ids, m - 1, subsets);
      var before := SubsetBuckets(bs, kinds, ids, SUBSET_ORDER, m - 1);
      OnePlaced(before, kinds[m - 1], m - 1, ids[m - 1], |SUBSET_ORDER|, subsets);
      FrontMoves(SubsetBuckets(bs, kinds, ids, SUBSET_ORDER, m), m, |SUBSET_ORDER|, m + 1, 0);
    }
  }

  lemma {:induction false} SeveralIs(subsets: seq<Subset>, m: nat)
    requires m <= |subsets|
    ensures ActiveCount(subsets, m) > 0 <==> exists s :: 0 <= s < m && subsets[s].active
    ensures ActiveCount(subsets, m) > 1 <==> exists s, t :: 0 <= s < t < m && subsets[s].active && subsets[t].active
  {
    if m > 0 {
      SeveralIs(subsets, m - 1);
    }
  }

  lemma ListPlaced(kinds: seq<seq<int>>, ids: seq<nat>, byProgress: bool, subsets: seq<Subset>)
    requires |kinds| == |ids| == |subsets|
    requires forall s :: 0 <= s < |ids| ==> ids[s] == if Several(subsets) then subsets[s].id else 0
    ensures PlainlyPlaced(TheList(kinds, ids, byProgress), subsets)
  {
    var shared := if byProgress then SharedBuckets(kinds, SHARED_ORDER, |SHARED_ORDER|) else Start;
    SharedPlaced(kinds, subsets, |SHARED_ORDER|);
    if byProgress {
      FrontMoves(shared, 0, |SHARED_ORDER|, 1, 0);
    }
    SubsetsPlaced(shared, kinds, ids, |kinds|, subsets);
  }

  /** Sorting inside the two buckets moves no bucket. */
  lemma {:induction false} ArrangedPlaced(bs: Buckets, plain: Buckets, subsets: seq<Subset>)
    requires Arranged(bs, plain, subsets) && PlainlyPlaced(plain, subsets)
    ensures WellPlaced(bs, subsets) && WellSorted(bs, subsets)
    ensures forall place: nat, rank: nat :: InFront(plain, place, rank) ==> InFront(bs, place, rank)
  {
    if bs.Add? {
      ArrangedPlaced(bs.front, plain.front, subsets);
      SameLength(bs.last.items, plain.last.items);
      assert Place(bs.last) == Place(plain.last);
    }
  }

  /** rc_client_create_achievement_list: every asked achievement of an active subset is listed once, in the bucket that
      its own fields ask for, and nothing else is; buckets and entries stand in their order, and they are exactly as
      many as were counted. */
  method CreateList(subsets: array<Subset>, q: Query) returns (list: Buckets, numBuckets: nat, numAchievements: nat)
    modifies subsets
    ensures AllUpToDate(subsets[..], old(subsets[..]), q)
    ensures forall p :: Listed(list, p) == One(Shown(old(subsets[..]), q, p))
    ensures forall p, kind :: InBucket(list, kind, p) <==>
              Shown(old(subsets[..]), q, p) && Fits(kind, old(subsets[..])[p.subset].items[p.index], q)
    ensures WellPlaced(list, subsets[..]) && WellSorted(list, subsets[..])
    ensures Length(list) == numBuckets && Total(list) == numAchievements
  {
    ghost var before := subsets[..];
    list, numBuckets, numAchievements := BothPasses(subsets, q);
    ghost var kinds := Kinds(subsets[..], q);
    RefreshedIsUpToDate(before, q);
    SeveralIs(subsets[..], subsets.Length);
    ListPlaced(kinds, Ids(subsets[..], ActiveCount(subsets[..], subsets.Length) > 1), q.byProgress, subsets[..]);
    ArrangedPlaced(list, TheList(kinds, Ids(subsets[..], ActiveCount(subsets[..], subsets.Length) > 1), q.byProgress),
      subsets[..]);
    InBuckets(list, before, q);
  }

  lemma InBuckets(list: Buckets, subsets: seq<Subset>, q: Query)
    requires Sound(list, Kinds(RefreshedAll(subsets, q), q))
    requires forall p :: Listed(list, p) == One(At(Kinds(RefreshedAll(subsets, q), q), p) != -1)
    ensures forall p :: Listed(list, p) == One(Shown(subsets, q, p))
    ensures forall p, kind :: InBucket(list, kind, p) <==>
              Shown(subsets, q, p) && Fits(kind, subsets[p.subset].items[p.index], q)
  {
    hide Fits, Kinds, RefreshedAll, Sound, Listed, InBucket, At;
    var kinds := Kinds(RefreshedAll(subsets, q), q);
    forall p ensures Listed(list, p) == One(Shown(subsets, q, p)) {
      KindFits(subsets, q, p, 0);
    }
    forall p, kind ensures InBucket(list, kind, p) <==>
        Shown(subsets, q, p) && Fits(kind, subsets[p.subset].items[p.index], q) {
      KindFits(subsets, q, p, kind);
      ListedInBucket(list, kinds, p);
    }
  }

  /** The two passes. */
  method BothPasses(subsets: array<Subset>, q: Query) returns (list: Buckets, numBuckets: nat, numAchievements: nat)
    modifies subsets
    ensures subsets[..] == RefreshedAll(old(subsets[..]), q)
    ensures Arranged(list, TheList(Kinds(subsets[..], q),
                                   Ids(subsets[..], ActiveCount(subsets[..], subsets.Length) > 1), q.byProgress),
                     subsets[..])
    ensures Length(list) == numBuckets && Total(list) == numAchievements
    ensures Sound(list, Kinds(subsets[..], q))
    ensures forall p :: Listed(list, p) == One(At(Kinds(subsets[..], q), p) != -1)
  {
    var counts, numSubsets := Refresh(subsets, q);
    var now := subsets[..];
    var multi := numSubsets > 1;
    ghost var kinds, ids := Kinds(now, q), Ids(now, multi);
    RefreshedIsReady(old(subsets[..]), q);
    numBuckets, numAchievements := CountBuckets(now, q, counts, multi);
    list := Start;
    if q.byProgress {
      list := FillShared(now, q);
    }
    ghost var shared := if q.byProgress then SharedBuckets(kinds, SHARED_ORDER, |SHARED_ORDER|) else Start;
    NotSorted();
    ArrangedSubsets(list, shared, now, kinds, ids, SUBSET_ORDER, |kinds|);
    list := FillSubsets(now, q, multi, list);
    ListFacts(now, q, multi);
    forall p ensures Listed(list, p) == One(At(kinds, p) != -1) {
      ArrangedKeeps(list, TheList(kinds, ids, q.byProgress), now, kinds, p);
    }
    ArrangedKeeps(list, TheList(kinds, ids, q.byProgress), now, kinds, Pointer(0, 0));
  }

  lemma NotSorted()
    ensures forall i :: 0 <= i < |SUBSET_ORDER| ==> !IsSorted(SUBSET_ORDER[i])
  {
    assert SUBSET_ORDER[0] == 1 && SUBSET_ORDER[1] == 4 && SUBSET_ORDER[2] == 3 && SUBSET_ORDER[3] == 2;
  }

  lemma ListFacts(subsets: seq<Subset>, q: Query, multi: bool)
    requires Ready(Kinds(subsets, q), q.byProgress) && multi == (ActiveCount(subsets, |subsets|) > 1)
    ensures var kinds, list := Kinds(subsets, q), TheList(Kinds(subsets, q), Ids(subsets, multi), q.byProgress);
            && Total(list) == NumAchievements(kinds, NUM_BUCKETS)
            && Length(list) == NumBuckets(kinds, multi, NUM_BUCKETS)
            && Sound(list, kinds)
            && (forall p :: Listed(list, p) == One(At(kinds, p) != -1))
  {
    var kinds, ids := Kinds(subsets, q), Ids(subsets, multi);
    var only := 0;
    if !multi {
      only := OnlyOne(subsets, |subsets|, q);
      forall s, i | 0 <= s < |kinds| && 0 <= i < |kinds[s]| && s != only ensures kinds[s][i] == -1 {
        assert kinds[s][i] == KindOf(subsets[s], i, q);
      }
    }
    CountsAgree(kinds, ids, q.byProgress, multi, only);
    ListIsSound(kinds, ids, q.byProgress);
    forall p ensures Listed(TheList(kinds, ids, q.byProgress), p) == One(At(kinds, p) != -1) {
      ListIsPartition(kinds, ids, q.byProgress, p);
    }
  }
}

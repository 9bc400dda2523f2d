/** The 4x4 inverse of raytracing.cpp, Gauss-Jordan with partial pivoting in place, over exact reals.
    Matrices are row-major sequences of 16 numbers. */
module MatrixInverse {

  predicate Matrix(m: seq<real>) {
    |m| == 16
  }

  /** The entry in row r and column k of x times y. */
  function ProductAt(x: seq<real>, y: seq<real>, r: nat, k: nat): real
    requires Matrix(x) && Matrix(y) && r < 4 && k < 4
  {
    x[r * 4] * y[k] + x[r * 4 + 1] * y[4 + k] + x[r * 4 + 2] * y[8 + k] + x[r * 4 + 3] * y[12 + k]
  }

  function Identity(r: nat, k: nat): real {
    if r == k then 1.0 else 0.0
  }

  /** x times y is the identity. */
  ghost predicate LeftInverse(x: seq<real>, y: seq<real>) {
    Matrix(x) && Matrix(y) && forall r, k :: 0 <= r < 4 && 0 <= k < 4 ==> ProductAt(x, y, r, k) == Identity(r, k)
  }

  // ---------------------------------------------------------------- rows of the working array

  /** a[4][8] lies row by row in 32 numbers. */
  function Row(a: array<real>, r: nat): (row: seq<real>)
    requires a.Length == 32 && r < 4
    reads a
    ensures |row| == 8
  {
    a[..][r * 8..r * 8 + 8]
  }

  /** The right half of the row, times m, in column k. */
  function Image(row: seq<real>, m: seq<real>, k: nat): real
    requires |row| == 8 && Matrix(m) && k < 4
  {
    row[4] * m[k] + row[5] * m[4 + k] + row[6] * m[8 + k] + row[7] * m[12 + k]
  }

  /** The right half times m is the left half. */
  ghost predicate Tracks(row: seq<real>, m: seq<real>) {
    |row| == 8 && Matrix(m) && forall k :: 0 <= k < 4 ==> Image(row, m, k) == row[k]
  }

  function Scaled(row: seq<real>, s: real): (r: seq<real>)
    requires |row| == 8
    ensures |r| == 8 && forall k :: 0 <= k < 8 ==> r[k] == row[k] * s
  {
    seq(8, k requires 0 <= k < 8 => row[k] * s)
  }

  function Reduced(row: seq<real>, pivot: seq<real>, f: real): (r: seq<real>)
    requires |row| == |pivot| == 8
    ensures |r| == 8 && forall k :: 0 <= k < 8 ==> r[k] == row[k] - f * pivot[k]
  {
    seq(8, k requires 0 <= k < 8 => row[k] - f * pivot[k])
  }

  lemma TracksScaled(from: seq<real>, s: real, m: seq<real>)
    requires Tracks(from, m)
    ensures Tracks(Scaled(from, s), m)
  {
    var row := Scaled(from, s);
    forall k | 0 <= k < 4 ensures Image(row, m, k) == row[k] {
      ScaleFour(from[4], from[5], from[6], from[7], m[k], m[4 + k], m[8 + k], m[12 + k], s);
      assert Image(from, m, k) == from[k];
    }
  }

  lemma ScaleFour(a: real, b: real, c: real, d: real, p: real, q: real, r: real, t: real, s: real)
    ensures (a * s) * p + (b * s) * q + (c * s) * r + (d * s) * t == (a * p + b * q + c * r + d * t) * s
  {
    assert (a * s) * p == (a * p) * s && (b * s) * q == (b * q) * s && (c * s) * r == (c * r) * s &&
        (d * s) * t == (d * t) * s;
  }

  lemma TracksReduced(from: seq<real>, pivot: seq<real>, f: real, m: seq<real>)
    requires Tracks(from, m) && Tracks(pivot, m)
    ensures Tracks(Reduced(from, pivot, f), m)
  {
    var row := Reduced(from, pivot, f);
    forall k | 0 <= k < 4 ensures Image(row, m, k) == row[k] {
      ReduceFour(from[4], from[5], from[6], from[7], pivot[4], pivot[5], pivot[6], pivot[7], m[k], m[4 + k], m[8 + k],
        m[12 + k], f);
      assert Image(from, m, k) == from[k] && Image(pivot, m, k) == pivot[k];
    }
  }

  lemma ReduceFour(a: real, b: real, c: real, d: real, a': real, b': real, c': real, d': real,
                   p: real, q: real, r: real, t: real, f: real)
    ensures (a - f * a') * p + (b - f * b') * q + (c - f * c') * r + (d - f * d') * t
            == (a * p + b * q + c * r + d * t) - f * (a' * p + b' * q + c' * r + d' * t)
  {
    ReduceOne(a, a', p, f);
    ReduceOne(b, b', q, f);
    ReduceOne(c, c', r, f);
    ReduceOne(d, d', t, f);
    assert f * (a' * p + b' * q + c' * r + d' * t) == f * (a' * p) + f * (b' * q) + f * (c' * r) + f * (d' * t);
  }

  lemma ReduceOne(a: real, b: real, p: real, f: real)
    ensures (a - f * b) * p == a * p - f * (b * p)
  {
    assert (f * b) * p == f * (b * p);
  }

  // ---------------------------------------------------------------- the algorithm

  function Abs(x: real): real {
    if x < 0.0 then -x else x
  }

  const EPSILON: real := 0.000000000001

  function Rows(a: array<real>): (rows: seq<seq<real>>)
    requires a.Length == 32
    reads a
    ensures |rows| == 4 && forall r :: 0 <= r < 4 ==> rows[r] == Row(a, r)
  {
    [Row(a, 0), Row(a, 1), Row(a, 2), Row(a, 3)]
  }

  ghost predicate Block(rows: seq<seq<real>>) {
    |rows| == 4 && forall r :: 0 <= r < 4 ==> |rows[r]| == 8
  }

  /** The first of the rows from c on with the largest entry in column c. */
  ghost predicate IsBest(rows: seq<seq<real>>, c: nat, p: nat)
    requires Block(rows) && c < 4
  {
    && c <= p < 4 && (forall r :: c <= r < 4 ==> Abs(rows[r][c]) <= Abs(rows[p][c]))
    && forall r :: c <= r < p ==> Abs(rows[r][c]) < Abs(rows[p][c])
  }

  ghost function Best(rows: seq<seq<real>>, c: nat, r: nat): (p: nat)
    requires Block(rows) && c <= r < 4
    ensures r <= p < 4 && (forall q :: r <= q < 4 ==> Abs(rows[q][c]) <= Abs(rows[p][c]))
    ensures forall q :: r <= q < p ==> Abs(rows[q][c]) < Abs(rows[p][c])
    decreases 4 - r
  {
    if r == 3 then 3
    else
      var p := Best(rows, c, r + 1);
      if Abs(rows[r][c]) >= Abs(rows[p][c]) then r else p
  }

  /** The other rows lose their entry in column c. */
  ghost function Cleared(rows: seq<seq<real>>, c: nat): (after: seq<seq<real>>)
    requires Block(rows) && c < 4
    ensures Block(after)
    ensures forall r :: 0 <= r < 4 ==> after[r] == if r == c then rows[c] else Reduced(rows[r], rows[c], rows[r][c])
  {
    seq(4, r requires 0 <= r < 4 => if r == c then rows[c] else Reduced(rows[r], rows[c], rows[r][c]))
  }

  /** One round with pivot row p. */
  ghost function Round(rows: seq<seq<real>>, c: nat, p: nat): (after: seq<seq<real>>)
    requires Block(rows) && c <= p < 4 && rows[p][c] != 0.0
    ensures Block(after)
  {
    var swapped := rows[c := rows[p]][p := rows[c]];
    Cleared(swapped[c := Scaled(swapped[c], 1.0 / swapped[c][c])], c)
  }

  /** Every pivot from column c on is large enough. */
  ghost predicate PivotsFrom(rows: seq<seq<real>>, c: nat)
    requires Block(rows) && c <= 4
    decreases 4 - c
  {
    c == 4 ||
    (var p := Best(rows, c, c); Abs(rows[p][c]) >= EPSILON && PivotsFrom(Round(rows, c, p), c + 1))
  }

  ghost function Loaded(m: seq<real>): (rows: seq<seq<real>>)
    requires Matrix(m)
    ensures Block(rows) && forall r, k :: 0 <= r < 4 && 0 <= k < 8 ==> rows[r][k] == Start(m, r, k)
  {
    seq(4, r requires 0 <= r < 4 => seq(8, k requires 0 <= k < 8 => Start(m, r, k)))
  }

  /** Every row tracks m, and the first c columns are those of the identity. */
  ghost predicate Solved(a: array<real>, m: seq<real>, c: nat)
    requires a.Length == 32 && c <= 4
    reads a
  {
    forall r :: 0 <= r < 4 ==> Tracks(Row(a, r), m) && Unit(Row(a, r), r, c)
  }

  /** The first c entries of a row are those of row r of the identity. */
  ghost predicate Unit(row: seq<real>, r: nat, c: nat) {
    c <= |row| && forall j :: 0 <= j < c ==> row[j] == Identity(r, j)
  }

  method Load(m: seq<real>) returns (a: array<real>)
    requires Matrix(m)
    ensures fresh(a) && a.Length == 32 && Solved(a, m, 0)
    ensures forall r :: 0 <= r < 4 ==> IsStart(Row(a, r), m, r)
  {
    a := new real[32];
    for r := 0 to 4
      invariant forall q :: 0 <= q < r ==> IsStart(Row(a, q), m, q)
    {
      LoadRow(a, m, r);
    }
    forall r | 0 <= r < 4 ensures Tracks(Row(a, r), m) {
      LoadedTracks(Row(a, r), m, r);
    }
  }

  ghost predicate IsStart(row: seq<real>, m: seq<real>, r: nat)
    requires Matrix(m) && r < 4
  {
    |row| == 8 && forall k :: 0 <= k < 8 ==> row[k] == Start(m, r, k)
  }

  method LoadRow(a: array<real>, m: seq<real>, r: nat)
    requires a.Length == 32 && Matrix(m) && r < 4
    modifies a
    ensures IsStart(Row(a, r), m, r) && forall q :: 0 <= q < 4 && q != r ==> Row(a, q) == old(Row(a, q))
  {
    for c := 0 to 4
      invariant forall i :: 0 <= i < 32 && (i < r * 8 || r * 8 + 8 <= i) ==> a[i] == old(a[i])
      invariant forall i :: r * 8 <= i < r * 8 + c ==> a[i] == Start(m, r, i - r * 8)
      invariant forall i :: r * 8 + 4 <= i < r * 8 + 4 + c ==> a[i] == Start(m, r, i - r * 8)
    {
      a[r * 8 + c] := m[r * 4 + c];
      a[r * 8 + c + 4] := if r == c then 1.0 else 0.0;
    }
    RowsKept(old(a[..]), a[..], r, r);
    forall k | 0 <= k < 8 ensures Row(a, r)[k] == Start(m, r, k) {
      assert Row(a, r)[k] == a[r * 8 + k];
    }
  }

  lemma SliceIs(x: seq<real>, r: nat, row: seq<real>)
    requires |x| == 32 && r < 4 && |row| == 8 && forall i :: r * 8 <= i < r * 8 + 8 ==> x[i] == row[i - r * 8]
    ensures x[r * 8..r * 8 + 8] == row
  {
    forall k | 0 <= k < 8 ensures x[r * 8..r * 8 + 8][k] == row[k] {
      assert x[r * 8 + k] == row[r * 8 + k - r * 8];
    }
  }

  /** Rows outside the changed ones are the same slices. */
  lemma RowsKept(x: seq<real>, y: seq<real>, c: nat, p: nat)
    requires |x| == |y| == 32 && c < 4 && p < 4
    requires forall i :: 0 <= i < 32 && !(c * 8 <= i < c * 8 + 8) && !(p * 8 <= i < p * 8 + 8) ==> x[i] == y[i]
    ensures forall q :: 0 <= q < 4 && q != c && q != p ==> x[q * 8..q * 8 + 8] == y[q * 8..q * 8 + 8]
  {
  }

  /** m and the identity, side by side. */
  function Start(m: seq<real>, r: nat, k: nat): real
    requires Matrix(m) && r < 4 && k < 8
  {
    if k < 4 then m[r * 4 + k] else Identity(r, k - 4)
  }

  lemma LoadedTracks(row: seq<real>, m: seq<real>, r: nat)
    requires Matrix(m) && r < 4 && IsStart(row, m, r)
    ensures Tracks(row, m)
  {
    assert row[4] == Identity(r, 0) && row[5] == Identity(r, 1) && row[6] == Identity(r, 2) && row[7] == Identity(r, 3);
    forall k | 0 <= k < 4 ensures Image(row, m, k) == row[k] {
    }
  }

  method FindPivot(a: array<real>, c: nat) returns (pivot: nat)
    requires a.Length == 32 && c < 4
    ensures IsBest(Rows(a), c, pivot)
  {
    pivot := c;
    for r := c + 1 to 4
      invariant c <= pivot < r && forall q :: c <= q < r ==> Abs(a[q * 8 + c]) <= Abs(a[pivot * 8 + c])
      invariant forall q :: c <= q < pivot ==> Abs(a[q * 8 + c]) < Abs(a[pivot * 8 + c])
    {
      if Abs(a[r * 8 + c]) > Abs(a[pivot * 8 + c]) {
        pivot := r;
      }
    }
    forall r | 0 <= r < 4 ensures Rows(a)[r][c] == a[r * 8 + c] {
    }
  }

  method SwapRows(a: array<real>, c: nat, p: nat)
    requires a.Length == 32 && c <= p < 4
    modifies a
    ensures Row(a, c) == old(Row(a, p)) && Row(a, p) == old(Row(a, c))
    ensures forall r :: 0 <= r < 4 && r != c && r != p ==> Row(a, r) == old(Row(a, r))
  {
    ghost var rc, rp := Row(a, c), Row(a, p);
    SwapRuns(a, c * 8, p * 8);
    RowsKept(old(a[..]), a[..], c, p);
    SliceIs(a[..], c, rp);
    SliceIs(a[..], p, rc);
  }

  method SwapRuns(a: array<real>, x: nat, y: nat)
    requires a.Length == 32 && x + 8 <= 32 && y + 8 <= 32 && (x == y || x + 8 <= y)
    modifies a
    ensures forall i :: 0 <= i < 32 ==>
              a[i] == if x <= i < x + 8 then old(a[y + (i - x)])
                      else if y <= i < y + 8 then old(a[x + (i - y)]) else old(a[i])
  {
    for k := 0 to 8
      invariant forall i :: 0 <= i < 32 ==>
                  a[i] == if x <= i < x + k then old(a[y + (i - x)])
                          else if y <= i < y + k then old(a[x + (i - y)]) else old(a[i])
    {
      var t := a[x + k];
      a[x + k] := a[y + k];
      a[y + k] := t;
    }
  }

  method ScaleRow(a: array<real>, c: nat, s: real)
    requires a.Length == 32 && c < 4
    modifies a
    ensures Row(a, c) == Scaled(old(Row(a, c)), s)
    ensures forall r :: 0 <= r < 4 && r != c ==> Row(a, r) == old(Row(a, r))
  {
    ghost var goal := Scaled(Row(a, c), s);
    for k := 0 to 8
      invariant forall i :: 0 <= i < 32 ==> a[i] == if c * 8 <= i < c * 8 + k then goal[i - c * 8] else old(a[i])
    {
      assert goal[k] == old(a[c * 8 + k]) * s;
      a[c * 8 + k] := a[c * 8 + k] * s;
    }
    RowsKept(old(a[..]), a[..], c, c);
    SliceIs(a[..], c, goal);
  }

  method ReduceRow(a: array<real>, r: nat, c: nat, f: real)
    requires a.Length == 32 && c < 4 && r < 4 && r != c
    modifies a
    ensures Row(a, r) == Reduced(old(Row(a, r)), old(Row(a, c)), f)
    ensures forall q :: 0 <= q < 4 && q != r ==> Row(a, q) == old(Row(a, q))
  {
    ghost var row, pivot := Row(a, r), Row(a, c);
    ReduceRun(a, r * 8, c * 8, f);
    RowsKept(old(a[..]), a[..], r, r);
    forall i | r * 8 <= i < r * 8 + 8 ensures a[i] == Reduced(row, pivot, f)[i - r * 8] {
      assert row[i - r * 8] == old(a[i]) && pivot[i - r * 8] == old(a[c * 8 + (i - r * 8)]);
    }
    SliceIs(a[..], r, Reduced(row, pivot, f));
  }

  method ReduceRun(a: array<real>, x: nat, y: nat, f: real)
    requires a.Length == 32 && x + 8 <= 32 && y + 8 <= 32 && (x + 8 <= y || y + 8 <= x)
    modifies a
    ensures forall i :: 0 <= i < 32 ==>
              a[i] == if x <= i < x + 8 then old(a[i]) - f * old(a[y + (i - x)]) else old(a[i])
  {
    for k := 0 to 8
      invariant forall i :: 0 <= i < 32 ==>
                  a[i] == if x <= i < x + k then old(a[i]) - f * old(a[y + (i - x)]) else old(a[i])
    {
      a[x + k] := a[x + k] - f * a[y + k];
    }
  }

  /** Swapping two rows from the c-th on keeps what has been solved. */
  method Exchange(a: array<real>, m: seq<real>, c: nat, p: nat)
    requires a.Length == 32 && c <= p < 4 && Solved(a, m, c)
    modifies a
    ensures Solved(a, m, c) && Rows(a) == old(Rows(a))[c := old(Row(a, p))][p := old(Row(a, c))]
  {
    ghost var rc, rp := Row(a, c), Row(a, p);
    assert Unit(rc, p, c) && Unit(rp, c, c);
    SwapRows(a, c, p);
    forall r | 0 <= r < 4 ensures Tracks(Row(a, r), m) && Unit(Row(a, r), r, c) {
      assert Row(a, r) == if r == c then rp else if r == p then rc else old(Row(a, r));
    }
    assert forall r :: 0 <= r < 4 ==> Row(a, r) == if r == p then rc else if r == c then rp else old(Row(a, r));
  }

  /** The entry on the diagonal becomes 1. */
  method Normalize(a: array<real>, m: seq<real>, c: nat)
    requires a.Length == 32 && c < 4 && Solved(a, m, c) && Row(a, c)[c] != 0.0
    modifies a
    ensures Solved(a, m, c) && Unit(Row(a, c), c, c + 1)
    ensures Rows(a) == old(Rows(a))[c := Scaled(old(Row(a, c)), 1.0 / old(Row(a, c))[c])]
  {
    ghost var row := Row(a, c);
    var inv := 1.0 / a[c * 8 + c];
    assert a[c * 8 + c] == row[c];
    TracksScaled(row, inv, m);
    ScaleRow(a, c, inv);
    forall r | 0 <= r < 4 ensures Tracks(Row(a, r), m) && Unit(Row(a, r), r, c) {
      assert r != c ==> Row(a, r) == old(Row(a, r));
    }
  }

  /** The other entries of the column become 0. */
  method Clear(a: array<real>, m: seq<real>, c: nat)
    requires a.Length == 32 && c < 4 && Solved(a, m, c) && Unit(Row(a, c), c, c + 1)
    modifies a
    ensures Solved(a, m, c + 1) && Rows(a) == Cleared(old(Rows(a)), c)
  {
    hide Tracks, Identity, Reduced, Image, Row, Cleared;
    ghost var before, goal := Rows(a), Cleared(Rows(a), c);
    for r := 0 to 4
      invariant Solved(a, m, c) && Row(a, c) == before[c] && Unit(before[c], c, c + 1)
      invariant forall q :: 0 <= q < r ==> Unit(Row(a, q), q, c + 1)
      invariant forall q :: 0 <= q < 4 ==> Row(a, q) == if q < r then goal[q] else before[q]
    {
      if r != c {
        ClearEntry(a, m, c, r);
        assert Row(a, r) == goal[r];
      }
    }
    assert Rows(a) == goal;
  }

  method ClearEntry(a: array<real>, m: seq<real>, c: nat, r: nat)
    requires a.Length == 32 && c < 4 && r < 4 && r != c && Solved(a, m, c) && Unit(Row(a, c), c, c + 1)
    modifies a
    ensures Solved(a, m, c) && Unit(Row(a, r), r, c + 1)
    ensures Row(a, r) == Reduced(old(Row(a, r)), old(Row(a, c)), old(Row(a, r))[c])
    ensures forall q :: 0 <= q < 4 && q != r ==> Row(a, q) == old(Row(a, q))
  {
    ghost var row, pivot := Row(a, r), Row(a, c);
    assert a[r * 8 + c] == row[c];
    ReducedByNothing(row, pivot);
    if a[r * 8 + c] != 0.0 {
      var f := a[r * 8 + c];
      TracksReduced(row, pivot, f, m);
      UnitReduced(row, pivot, f, c, r);
      ReduceRow(a, r, c, f);
      forall q | 0 <= q < 4 ensures Tracks(Row(a, q), m) && Unit(Row(a, q), q, c) {
        assert q != r ==> Row(a, q) == old(Row(a, q));
      }
    }
  }

  lemma ReducedByNothing(row: seq<real>, pivot: seq<real>)
    requires |row| == |pivot| == 8
    ensures Reduced(row, pivot, 0.0) == row
  {
  }

  lemma UnitReduced(row: seq<real>, pivot: seq<real>, f: real, c: nat, r: nat)
    requires |row| == |pivot| == 8 && c < 4 && r < 4 && r != c && Unit(row, r, c) && Unit(pivot, c, c + 1)
    requires f == row[c]
    ensures Unit(Reduced(row, pivot, f), r, c + 1)
  {
    forall j | 0 <= j < c ensures Reduced(row, pivot, f)[j] == row[j] {
      assert pivot[j] == 0.0;
    }
    assert pivot[c] == 1.0;
  }

  /** invert4: it says so exactly if every pivot is large enough, and then out times m is the identity. */
  method Invert4(m: seq<real>, out: array<real>) returns (ok: bool)
    requires Matrix(m) && out.Length == 16
    modifies out
    ensures ok <==> PivotsFrom(Loaded(m), 0)
    ensures ok ==> LeftInverse(out[..], m)
  {
    hide Round, Best, Tracks, Loaded, LeftInverse;
    var a := Load(m);
    LoadedRows(m, Rows(a));
    for c := 0 to 4
      invariant Solved(a, m, c) && (PivotsFrom(Loaded(m), 0) <==> PivotsFrom(Rows(a), c))
    {
      var pivot := FindPivot(a, c);
      BestIs(Rows(a), c, pivot);
      assert Row(a, pivot)[c] == a[pivot * 8 + c];
      if Abs(a[pivot * 8 + c]) < EPSILON {
        return false;
      }
      RoundOf(a, m, c, pivot);
    }
    Store(a, m, out);
    return true;
  }

  method RoundOf(a: array<real>, m: seq<real>, c: nat, p: nat)
    requires a.Length == 32 && c <= p < 4 && Solved(a, m, c) && Row(a, p)[c] != 0.0
    modifies a
    ensures Solved(a, m, c + 1) && Rows(a) == Round(old(Rows(a)), c, p)
  {
    Exchange(a, m, c, p);
    Normalize(a, m, c);
    Clear(a, m, c);
  }

  lemma LoadedRows(m: seq<real>, rows: seq<seq<real>>)
    requires Matrix(m) && Block(rows) && forall r :: 0 <= r < 4 ==> IsStart(rows[r], m, r)
    ensures rows == Loaded(m)
  {
    forall r | 0 <= r < 4 ensures rows[r] == Loaded(m)[r] {
    }
  }

  lemma BestIs(rows: seq<seq<real>>, c: nat, p: nat)
    requires Block(rows) && c < 4 && IsBest(rows, c, p)
    ensures Best(rows, c, c) == p
  {
    var b := Best(rows, c, c);
    assert Abs(rows[b][c]) <= Abs(rows[p][c]) && Abs(rows[p][c]) <= Abs(rows[b][c]);
  }

  method Store(a: array<real>, m: seq<real>, out: array<real>)
    requires Matrix(m) && a.Length == 32 && out.Length == 16 && Solved(a, m, 4)
    modifies out
    ensures LeftInverse(out[..], m)
  {
    for r := 0 to 4
      invariant forall q :: 0 <= q < r ==> Stored(out[..], a[..], q)
    {
      ghost var before := out[..];
      for c := 0 to 4
        invariant forall i :: 0 <= i < 16 ==>
                    out[i] == if r * 4 <= i < r * 4 + c then a[r * 8 + 4 + (i - r * 4)] else before[i]
      {
        out[r * 4 + c] := a[r * 8 + c + 4];
      }
      StoredStays(before, out[..], a[..], r);
    }
    forall r, k | 0 <= r < 4 && 0 <= k < 4 ensures ProductAt(out[..], m, r, k) == Identity(r, k) {
      assert Stored(out[..], a[..], r);
      assert Tracks(Row(a, r), m) && Unit(Row(a, r), r, 4);
      assert Image(Row(a, r), m, k) == Row(a, r)[k];
    }
  }

  /** Row r of out is the right half of row r of a. */
  ghost predicate Stored(out: seq<real>, a: seq<real>, r: int)
    requires |out| == 16 && |a| == 32 && 0 <= r < 4
  {
    && out[r * 4] == a[r * 8..r * 8 + 8][4] && out[r * 4 + 1] == a[r * 8..r * 8 + 8][5]
    && out[r * 4 + 2] == a[r * 8..r * 8 + 8][6] && out[r * 4 + 3] == a[r * 8..r * 8 + 8][7]
  }

  lemma StoredStays(before: seq<real>, out: seq<real>, a: seq<real>, r: nat)
    requires |before| == |out| == 16 && |a| == 32 && r < 4
    requires forall i :: 0 <= i < 16 ==>
               out[i] == if r * 4 <= i < r * 4 + 4 then a[r * 8 + 4 + (i - r * 4)] else before[i]
    requires forall q :: 0 <= q < r ==> Stored(before, a, q)
    ensures forall q :: 0 <= q < r + 1 ==> Stored(out, a, q)
  {
    forall q | 0 <= q < r ensures Stored(out, a, q) {
      assert Stored(before, a, q);
    }
  }

  // ---------------------------------------------------------------- when it says so

  /** Nothing below the diagonal in the first two columns, as in a perspective and in any upper triangular matrix. */
  predicate TwoColumnsDone(m: seq<real>) {
    Matrix(m) && m[4] == m[8] == m[12] == 0.0 && m[9] == m[13] == 0.0
  }

  /** Both diagonal entries and the two pivots of the lower right corner are large enough. */
  predicate Regular(m: seq<real>)
    requires Matrix(m)
  {
    && Abs(m[0]) >= EPSILON && Abs(m[5]) >= EPSILON
    && if Abs(m[10]) >= Abs(m[14])
       then Abs(m[10]) >= EPSILON && Abs(Left(m[10], m[11], m[14], m[15])) >= EPSILON
       else Abs(m[14]) >= EPSILON && Abs(Left(m[14], m[15], m[10], m[11])) >= EPSILON
  }

  /** What is left of the entry b' behind a' when a row with a and b has cleared a'. */
  function Left(a: real, b: real, a': real, b': real): real
    requires a != 0.0
  {
    b' - a' * (b * (1.0 / a))
  }

  /** The rows from c on hold m in the columns from c on, and nothing in front. */
  ghost predicate StillOriginal(rows: seq<seq<real>>, m: seq<real>, c: nat)
    requires Matrix(m)
  {
    Block(rows) && c <= 4 && forall r, k :: c <= r < 4 && c <= k < 4 ==> rows[r][k] == m[r * 4 + k]
  }

  /** A column that is done needs no exchange and leaves the rows below alone. */
  lemma RoundKeeps(rows: seq<seq<real>>, m: seq<real>, c: nat)
    requires Matrix(m) && c < 2 && StillOriginal(rows, m, c) && Abs(m[c * 4 + c]) >= EPSILON
    requires forall r :: c < r < 4 ==> m[r * 4 + c] == 0.0
    ensures Best(rows, c, c) == c && rows[c][c] == m[c * 4 + c]
    ensures StillOriginal(Round(rows, c, c), m, c + 1)
  {
    assert rows[c][c] == m[c * 4 + c];
    forall r | c < r < 4 ensures rows[r][c] == 0.0 {
      assert rows[r][c] == m[r * 4 + c];
    }
    var pivot := Scaled(rows[c], 1.0 / rows[c][c]);
    forall r | c < r < 4 ensures Round(rows, c, c)[r] == rows[r] {
      ReducedByNothing(rows[r], pivot);
    }
  }

  lemma RoundFails(rows: seq<seq<real>>, m: seq<real>, c: nat)
    requires Matrix(m) && c < 2 && StillOriginal(rows, m, c) && Abs(m[c * 4 + c]) < EPSILON
    requires forall r :: c < r < 4 ==> m[r * 4 + c] == 0.0
    ensures !PivotsFrom(rows, c)
  {
    assert rows[c][c] == m[c * 4 + c];
    forall r | c < r < 4 ensures rows[r][c] == 0.0 {
      assert rows[r][c] == m[r * 4 + c];
    }
    var p := Best(rows, c, c);
    assert Abs(rows[p][c]) < EPSILON;
  }

  /** The lower right corner. */
  lemma Corner(rows: seq<seq<real>>, m: seq<real>)
    requires Matrix(m) && StillOriginal(rows, m, 2)
    ensures PivotsFrom(rows, 2) <==>
            if Abs(m[10]) >= Abs(m[14])
            then Abs(m[10]) >= EPSILON && Abs(Left(m[10], m[11], m[14], m[15])) >= EPSILON
            else Abs(m[14]) >= EPSILON && Abs(Left(m[14], m[15], m[10], m[11])) >= EPSILON
  {
    hide Round, PivotsFrom, Best, Left;
    assert rows[2][2] == m[2 * 4 + 2] && rows[2][3] == m[2 * 4 + 3];
    assert rows[3][2] == m[3 * 4 + 2] && rows[3][3] == m[3 * 4 + 3];
    BestOfTwo(rows);
    var p := Best(rows, 2, 2);
    if Abs(rows[p][2]) >= EPSILON {
      PivotsStep(rows, 2);
      LastRow(rows, p);
      LastPivot(Round(rows, 2, p));
    } else {
      NoPivot(rows, 2);
    }
  }

  lemma BestOfTwo(rows: seq<seq<real>>)
    requires Block(rows)
    ensures Best(rows, 2, 2) == if Abs(rows[2][2]) >= Abs(rows[3][2]) then 2 else 3
  {
  }

  lemma LastPivot(rows: seq<seq<real>>)
    requires Block(rows)
    ensures PivotsFrom(rows, 3) <==> Abs(rows[3][3]) >= EPSILON
  {
  }

  lemma NoPivot(rows: seq<seq<real>>, c: nat)
    requires Block(rows) && c < 4 && Abs(rows[Best(rows, c, c)][c]) < EPSILON
    ensures !PivotsFrom(rows, c)
  {
  }

  lemma LastRow(rows: seq<seq<real>>, p: nat)
    requires Block(rows) && 2 <= p < 4 && rows[p][2] != 0.0
    ensures var q := 5 - p;
            Round(rows, 2, p)[3][3] == Left(rows[p][2], rows[p][3], rows[q][2], rows[q][3])
  {
  }

  /** For these matrices: exactly when both diagonal entries and the corner allow it. */
  lemma PivotsIff(m: seq<real>)
    requires TwoColumnsDone(m)
    ensures PivotsFrom(Loaded(m), 0) <==> Regular(m)
  {
    hide PivotsFrom, Round;
    var rows := Loaded(m);
    assert StillOriginal(rows, m, 0);
    if Abs(m[0]) < EPSILON {
      RoundFails(rows, m, 0);
    } else {
      RoundKeeps(rows, m, 0);
      PivotsStep(rows, 0);
      var one := Round(rows, 0, 0);
      if Abs(m[5]) < EPSILON {
        RoundFails(one, m, 1);
      } else {
        RoundKeeps(one, m, 1);
        PivotsStep(one, 1);
        Corner(Round(one, 1, 1), m);
      }
    }
  }

  lemma PivotsStep(rows: seq<seq<real>>, c: nat)
    requires Block(rows) && c < 4 && Abs(rows[Best(rows, c, c)][c]) >= EPSILON
    ensures PivotsFrom(rows, c) <==> PivotsFrom(Round(rows, c, Best(rows, c, c)), c + 1)
  {
  }

  /** The perspective projection of a field of view and a near and a far plane. */
  function Perspective(x: real, y: real, near: real, far: real): (m: seq<real>)
    requires near < far
    ensures Matrix(m)
  {
    [ x, 0.0, 0.0, 0.0,
      0.0, y, 0.0, 0.0,
      0.0, 0.0, (near + far) / (near - far), -1.0,
      0.0, 0.0, 2.0 * near * far / (near - far), 0.0 ]
  }

  /** Every perspective with scales and a near plane that are not tiny is inverted. */
  lemma PerspectiveInverts(x: real, y: real, near: real, far: real)
    requires Abs(x) >= EPSILON && Abs(y) >= EPSILON && EPSILON <= near < far
    ensures PivotsFrom(Loaded(Perspective(x, y, near, far)), 0)
  {
    var m := Perspective(x, y, near, far);
    hide PivotsFrom, Loaded;
    PivotsIff(m);
    IsRegular(m, (near + far) / (near - far), 2.0 * near * far / (near - far), near, far);
  }

  lemma IsRegular(m: seq<real>, a: real, d: real, near: real, far: real)
    requires Matrix(m) && Abs(m[0]) >= EPSILON && Abs(m[5]) >= EPSILON && EPSILON <= near < far
    requires m[10] == a && m[11] == -1.0 && m[14] == d && m[15] == 0.0
    requires a == (near + far) / (near - far) && d == 2.0 * near * far / (near - far)
    ensures Regular(m)
  {
    PerspectiveCorner(near, far, a, d);
  }

  lemma PerspectiveCorner(near: real, far: real, a: real, d: real)
    requires EPSILON <= near < far && a == (near + far) / (near - far) && d == 2.0 * near * far / (near - far)
    ensures a < -1.0 && d < 0.0
    ensures Abs(a) >= Abs(d) ==> Abs(Left(a, -1.0, d, 0.0)) >= EPSILON
    ensures Abs(a) < Abs(d) ==> Abs(Left(d, 0.0, a, -1.0)) >= EPSILON && Abs(d) >= EPSILON
  {
    var w := far - near;
    assert a * w == -(near + far) && d * w == -(2.0 * near * far) by {
      assert a * (near - far) == near + far && d * (near - far) == 2.0 * near * far;
    }
    assert near * far > 0.0;
    Smaller(a, -1.0, w);
    Smaller(d, 0.0, w);
    Ratio(near, far, a, d, w);
  }

  lemma Smaller(x: real, y: real, w: real)
    requires w > 0.0 && x * w < y * w
    ensures x < y
  {
  }

  lemma NotLarger(x: real, y: real, w: real)
    requires w > 0.0 && x * w <= y * w
    ensures x <= y
  {
  }

  /** d / a is at least the near distance. */
  lemma Ratio(near: real, far: real, a: real, d: real, w: real)
    requires 0.0 < near < far && w == far - near && a < -1.0 && d < 0.0
    requires a * w == -(near + far) && d * w == -(2.0 * near * far)
    ensures d * (1.0 / a) >= near
  {
    var t := d * (1.0 / a);
    assert t * a == d;
    assert t * (near + far) == 2.0 * near * far by {
      assert (t * a) * w == t * (a * w);
    }
    assert near * (far - near) > 0.0;
    assert near * (near + far) == near * near + near * far && near * (far - near) == near * far - near * near;
    NotLarger(near, t, near + far);
  }

  // ---------------------------------------------------------------- products

  /** A row times a column. */
  ghost function Dot(a0: real, a1: real, a2: real, a3: real, b0: real, b1: real, b2: real, b3: real): real {
    a0 * b0 + a1 * b1 + a2 * b2 + a3 * b3
  }

  lemma RowTimesColumn(v: seq<real>, p: seq<real>, r: nat, k: nat)
    requires Matrix(v) && Matrix(p) && r < 4 && k < 4
    ensures ProductAt(v, p, r, k) ==
            Dot(v[r * 4], v[r * 4 + 1], v[r * 4 + 2], v[r * 4 + 3], p[k], p[4 + k], p[8 + k], p[12 + k])
  {
  }

  /** A row times a matrix, times a column. */
  lemma Reassociate(c0: real, c1: real, c2: real, c3: real, q: seq<real>, p0: real, p1: real, p2: real, p3: real)
    requires Matrix(q)
    ensures Dot(Dot(c0, c1, c2, c3, q[0], q[4], q[8], q[12]), Dot(c0, c1, c2, c3, q[1], q[5], q[9], q[13]),
                Dot(c0, c1, c2, c3, q[2], q[6], q[10], q[14]), Dot(c0, c1, c2, c3, q[3], q[7], q[11], q[15]),
                p0, p1, p2, p3)
            == Dot(c0, c1, c2, c3, Dot(q[0], q[1], q[2], q[3], p0, p1, p2, p3),
                   Dot(q[4], q[5], q[6], q[7], p0, p1, p2, p3),
                   Dot(q[8], q[9], q[10], q[11], p0, p1, p2, p3), Dot(q[12], q[13], q[14], q[15], p0, p1, p2, p3))
  {
    Distribute(c0, c1, c2, c3, q[0], q[4], q[8], q[12], p0);
    Distribute(c0, c1, c2, c3, q[1], q[5], q[9], q[13], p1);
    Distribute(c0, c1, c2, c3, q[2], q[6], q[10], q[14], p2);
    Distribute(c0, c1, c2, c3, q[3], q[7], q[11], q[15], p3);
    Collect(c0, q[0] * p0, q[1] * p1, q[2] * p2, q[3] * p3);
    Collect(c1, q[4] * p0, q[5] * p1, q[6] * p2, q[7] * p3);
    Collect(c2, q[8] * p0, q[9] * p1, q[10] * p2, q[11] * p3);
    Collect(c3, q[12] * p0, q[13] * p1, q[14] * p2, q[15] * p3);
  }

  lemma Distribute(c0: real, c1: real, c2: real, c3: real, q0: real, q1: real, q2: real, q3: real, p: real)
    ensures (c0 * q0 + c1 * q1 + c2 * q2 + c3 * q3) * p == c0 * (q0 * p) + c1 * (q1 * p) + c2 * (q2 * p) + c3 * (q3 * p)
  {
  }

  lemma Collect(c: real, a: real, b: real, d: real, e: real)
    ensures c * a + c * b + c * d + c * e == c * (a + b + d + e)
  {
  }

  /** A singular matrix is never inverted: what m sends to nothing, a left inverse cannot send back. */
  lemma SingularHasNoInverse(m: seq<real>, out: seq<real>, v0: real, v1: real, v2: real, v3: real)
    requires Matrix(m) && LeftInverse(out, m)
    requires forall r :: 0 <= r < 4 ==> Dot(m[r * 4], m[r * 4 + 1], m[r * 4 + 2], m[r * 4 + 3], v0, v1, v2, v3) == 0.0
    ensures v0 == v1 == v2 == v3 == 0.0
  {
    SentBack(m, out, v0, v1, v2, v3, 0);
    SentBack(m, out, v0, v1, v2, v3, 1);
    SentBack(m, out, v0, v1, v2, v3, 2);
    SentBack(m, out, v0, v1, v2, v3, 3);
  }

  lemma SentBack(m: seq<real>, out: seq<real>, v0: real, v1: real, v2: real, v3: real, i: nat)
    requires Matrix(m) && LeftInverse(out, m) && i < 4
    requires forall r :: 0 <= r < 4 ==> Dot(m[r * 4], m[r * 4 + 1], m[r * 4 + 2], m[r * 4 + 3], v0, v1, v2, v3) == 0.0
    ensures [v0, v1, v2, v3][i] == 0.0
  {
    hide Dot, ProductAt, Identity;
    var c0, c1, c2, c3 := out[i * 4], out[i * 4 + 1], out[i * 4 + 2], out[i * 4 + 3];
    Reassociate(c0, c1, c2, c3, m, v0, v1, v2, v3);
    RowTimesColumn(out, m, i, 0);
    RowTimesColumn(out, m, i, 1);
    RowTimesColumn(out, m, i, 2);
    RowTimesColumn(out, m, i, 3);
    assert Dot(m[0 * 4], m[0 * 4 + 1], m[0 * 4 + 2], m[0 * 4 + 3], v0, v1, v2, v3) == 0.0;
    assert Dot(m[1 * 4], m[1 * 4 + 1], m[1 * 4 + 2], m[1 * 4 + 3], v0, v1, v2, v3) == 0.0;
    assert Dot(m[2 * 4], m[2 * 4 + 1], m[2 * 4 + 2], m[2 * 4 + 3], v0, v1, v2, v3) == 0.0;
    assert Dot(m[3 * 4], m[3 * 4 + 1], m[3 * 4 + 2], m[3 * 4 + 3], v0, v1, v2, v3) == 0.0;
    NothingComesOf(c0, c1, c2, c3);
    UnitTimes(i, v0, v1, v2, v3);
  }

  lemma NothingComesOf(c0: real, c1: real, c2: real, c3: real)
    ensures Dot(c0, c1, c2, c3, 0.0, 0.0, 0.0, 0.0) == 0.0
  {
  }

  lemma UnitTimes(i: nat, v0: real, v1: real, v2: real, v3: real)
    requires i < 4
    ensures Dot(Identity(i, 0), Identity(i, 1), Identity(i, 2), Identity(i, 3), v0, v1, v2, v3) == [v0, v1, v2, v3][i]
  {
  }
}

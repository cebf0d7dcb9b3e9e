/// Whole-array operations on 2-D grids as numpy performs them: `flipud`,
/// `transpose`, and flattening in row-major (C) and column-major (Fortran)
/// order.
module Grids {
  import opened Arith

  /// A 2-D array of `rows` rows, each `cols` long.
  predicate IsGrid<T>(g: seq<seq<T>>, rows: nat, cols: nat) {
    |g| == rows && forall r :: 0 <= r < rows ==> |g[r]| == cols
  }

  /// The shapes `np.genfromtxt` and `np.loadtxt` read as a 2-D array. A
  /// text map of one row or one column comes back as a 1-D array (a single
  /// value as a 0-D one), so `shape[1]` raises IndexError: only maps of at
  /// least two rows and two columns get past the shape lookup.
  predicate TwoD(rows: nat, cols: nat) {
    rows >= 2 && cols >= 2
  }

  /// `np.flipud`: the rows in reverse order.
  function Flip<T>(g: seq<T>): (f: seq<T>)
    ensures |f| == |g|
  {
    if g == [] then [] else Flip(g[1..]) + [g[0]]
  }

  lemma {:induction false} FlipAt<T>(g: seq<T>, r: nat)
    requires r < |g|
    ensures Flip(g)[r] == g[|g| - 1 - r]
  {
    if r < |g| - 1 {
      FlipAt(g[1..], r);
    }
  }

  /// Flipping twice gives the rows back.
  lemma FlipFlip<T>(g: seq<T>)
    ensures Flip(Flip(g)) == g
  {
    forall r | 0 <= r < |g|
      ensures Flip(Flip(g))[r] == g[r]
    {
      FlipAt(Flip(g), r);
      FlipAt(g, |g| - 1 - r);
    }
  }

  lemma FlipGrid<T>(g: seq<seq<T>>, rows: nat, cols: nat)
    requires IsGrid(g, rows, cols)
    ensures IsGrid(Flip(g), rows, cols)
  {
    forall r | 0 <= r < rows
      ensures |Flip(g)[r]| == cols
    {
      FlipAt(g, r);
    }
  }

  /// `a.transpose()` of a rows x cols grid.
  function Transpose<T>(g: seq<seq<T>>, rows: nat, cols: nat): (t: seq<seq<T>>)
    requires IsGrid(g, rows, cols)
    ensures IsGrid(t, cols, rows)
  {
    seq(cols, c requires 0 <= c < cols => seq(rows, r requires 0 <= r < rows => g[r][c]))
  }

  lemma TransposeTranspose<T>(g: seq<seq<T>>, rows: nat, cols: nat)
    requires IsGrid(g, rows, cols)
    ensures Transpose(Transpose(g, rows, cols), cols, rows) == g
  {
    var t := Transpose(Transpose(g, rows, cols), cols, rows);
    forall r | 0 <= r < rows
      ensures t[r] == g[r]
    {
    }
  }

  /// The pieces one after another.
  function Concat<T>(cs: seq<seq<T>>): seq<T> {
    if cs == [] then [] else Concat(cs[..|cs| - 1]) + cs[|cs| - 1]
  }

  lemma {:induction false} ConcatLength<T>(cs: seq<seq<T>>, w: nat)
    requires forall i :: 0 <= i < |cs| ==> |cs[i]| == w
    ensures |Concat(cs)| == |cs| * w
  {
    if cs != [] {
      var n := |cs|;
      ConcatLength(cs[..n - 1], w);
      assert Concat(cs) == Concat(cs[..n - 1]) + cs[n - 1];
      MulSucc(n - 1, w);
    }
  }

  /// A slice inside the front part of `a + b` is a slice of `a`.
  lemma SliceOfFront<T>(a: seq<T>, b: seq<T>, i: nat, j: nat)
    requires i <= j <= |a|
    ensures (a + b)[i..j] == a[i..j]
  {
  }

  /// The back part of `a + b` is `b`.
  lemma SliceOfBack<T>(a: seq<T>, b: seq<T>)
    ensures (a + b)[|a|..|a| + |b|] == b
  {
  }

  /// Piece `k` of equally long pieces occupies positions `k*w .. k*w + w`.
  lemma {:induction false} ConcatChunk<T>(cs: seq<seq<T>>, w: nat, k: nat)
    requires forall i :: 0 <= i < |cs| ==> |cs[i]| == w
    requires k < |cs|
    ensures |Concat(cs)| == |cs| * w && k * w + w <= |Concat(cs)|
    ensures Concat(cs)[k * w .. k * w + w] == cs[k]
  {
    var n := |cs|;
    var pre := cs[..n - 1];
    var a := Concat(pre);
    ConcatLength(cs, w);
    ConcatLength(pre, w);
    assert Concat(cs) == a + cs[n - 1];
    if k < n - 1 {
      ConcatChunk(pre, w, k);
      MulAtLeastLe(k + 1, n - 1, w);
      MulSucc(k, w);
      SliceOfFront(a, cs[n - 1], k * w, k * w + w);
    } else {
      SliceOfBack(a, cs[n - 1]);
    }
  }

  /// Element `b` of piece `k`.
  lemma ConcatAt<T>(cs: seq<seq<T>>, w: nat, k: nat, b: nat)
    requires forall i :: 0 <= i < |cs| ==> |cs[i]| == w
    requires k < |cs| && b < w
    ensures |Concat(cs)| == |cs| * w && k * w + b < |Concat(cs)|
    ensures Concat(cs)[k * w + b] == cs[k][b]
  {
    ConcatChunk(cs, w, k);
    assert Concat(cs)[k * w + b] == Concat(cs)[k * w .. k * w + w][b];
  }

  /// Where the pieces of `a + b + c + d + e + g` sit.
  lemma SixPieces<T>(a: seq<T>, b: seq<T>, c: seq<T>, d: seq<T>, e: seq<T>, g: seq<T>)
    ensures var f := a + b + c + d + e + g;
      var i, j := |a| + |b| + |c|, |a| + |b| + |c| + |d| + |e|;
      |f| == j + |g| && f[..|a|] == a && f[|a|..|a| + |b|] == b && f[i..i + |d|] == d && f[j..] == g &&
      f[j..j + |g|] == g
  {
    var f := a + b + c + d + e + g;
    var i, j := |a| + |b| + |c|, |a| + |b| + |c| + |d| + |e|;
    assert f[..|a|] == a;
    assert f[|a|..|a| + |b|] == b;
    assert f[i..i + |d|] == d;
    assert f[j..] == g;
    assert f[j..j + |g|] == g;
  }

  /// The first of six pieces opens the whole.
  lemma FirstOfSix<T>(f: seq<T>, a: seq<T>, b: seq<T>, c: seq<T>, d: seq<T>, e: seq<T>, g: seq<T>, i: nat)
    requires f == a + b + c + d + e + g && i == |a|
    ensures i <= |f| && f[..i] == a
  {
    SixPieces(a, b, c, d, e, g);
  }

  /// The second of six pieces sits at `i .. j`.
  lemma SecondOfSix<T>(f: seq<T>, a: seq<T>, b: seq<T>, c: seq<T>, d: seq<T>, e: seq<T>, g: seq<T>, i: nat, j: nat)
    requires f == a + b + c + d + e + g && i == |a| && j == i + |b|
    ensures j <= |f| && f[i..j] == b
  {
    SixPieces(a, b, c, d, e, g);
  }

  /// The fourth of six pieces sits at `i .. j`.
  lemma FourthOfSix<T>(f: seq<T>, a: seq<T>, b: seq<T>, c: seq<T>, d: seq<T>, e: seq<T>, g: seq<T>, i: nat, j: nat)
    requires f == a + b + c + d + e + g && i == |a| + |b| + |c| && j == i + |d|
    ensures j <= |f| && f[i..j] == d
  {
    SixPieces(a, b, c, d, e, g);
  }

  /// The last of six pieces sits at `i .. j`, the end of the whole.
  lemma LastOfSix<T>(f: seq<T>, a: seq<T>, b: seq<T>, c: seq<T>, d: seq<T>, e: seq<T>, g: seq<T>, i: nat, j: nat)
    requires f == a + b + c + d + e + g && i == |a| + |b| + |c| + |d| + |e| && j == i + |g|
    ensures j == |f| && f[i..j] == g
  {
    SixPieces(a, b, c, d, e, g);
  }

  /// A slice of a slice is a slice of the whole.
  lemma SliceOfSlice<T>(f: seq<T>, a: nat, b: nat, i: nat, j: nat)
    requires a <= b <= |f| && i <= j <= b - a
    ensures f[a..b][i..j] == f[a + i .. a + j]
  {
    forall k | 0 <= k < j - i
      ensures f[a..b][i..j][k] == f[a + i .. a + j][k]
    {
    }
  }

  /// `np.reshape(g, rows*cols, order='F')`: the columns one after another,
  /// so the row index runs fastest.
  function FortranFlatten<T>(g: seq<seq<T>>, rows: nat, cols: nat): (f: seq<T>)
    requires IsGrid(g, rows, cols)
    ensures |f| == rows * cols
  {
    ConcatLength(Transpose(g, rows, cols), rows);
    Concat(Transpose(g, rows, cols))
  }

  lemma FortranFlattenAt<T>(g: seq<seq<T>>, rows: nat, cols: nat, r: nat, c: nat)
    requires IsGrid(g, rows, cols) && r < rows && c < cols
    ensures |FortranFlatten(g, rows, cols)| == rows * cols
    ensures r + rows * c < rows * cols
    ensures FortranFlatten(g, rows, cols)[r + rows * c] == g[r][c]
  {
    ConcatAt(Transpose(g, rows, cols), rows, c, r);
  }

  /// Every position of the flattened grid holds exactly one cell: position
  /// `k` holds the cell at row `k % rows`, column `k / rows`.
  lemma FortranFlattenIndex<T>(g: seq<seq<T>>, rows: nat, cols: nat, k: nat)
    requires IsGrid(g, rows, cols) && k < rows * cols
    ensures k % rows < rows && k / rows < cols
    ensures |FortranFlatten(g, rows, cols)| == rows * cols
    ensures FortranFlatten(g, rows, cols)[k] == g[k % rows][k / rows]
  {
    var r, c := k % rows, k / rows;
    assert k == c * rows + r;
    if c >= cols {
      MulAtLeastLe(cols, c, rows);
    }
    FortranFlattenAt(g, rows, cols, r, c);
  }

  /// Row-major (C order) flattening: the rows one after another.
  lemma RowMajorAt<T>(g: seq<seq<T>>, rows: nat, cols: nat, r: nat, c: nat)
    requires IsGrid(g, rows, cols) && r < rows && c < cols
    ensures |Concat(g)| == rows * cols
    ensures c + cols * r < rows * cols
    ensures Concat(g)[c + cols * r] == g[r][c]
  {
    ConcatAt(g, cols, r, c);
  }

  /// `g` has at least `rows` rows of at least `cols` entries: indexing
  /// `g[r][c]` with `r < rows` and `c < cols` succeeds.
  predicate Spans<T>(g: seq<seq<T>>, rows: nat, cols: nat) {
    |g| >= rows && forall r :: 0 <= r < rows ==> |g[r]| >= cols
  }

  /// Appending one more piece.
  lemma ConcatSnoc<T>(cs: seq<seq<T>>, k: nat)
    requires k < |cs|
    ensures Concat(cs[..k + 1]) == Concat(cs[..k]) + cs[k]
  {
    assert cs[..k + 1][..k] == cs[..k];
  }
}

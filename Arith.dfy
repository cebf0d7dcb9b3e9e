/// Facts about Euclidean division that the index arithmetic of the grid
/// layouts needs and the solver does not find by itself.
module Arith {
  lemma MulAtLeast(k: int, m: int)
    requires k >= 1 && m >= 0
    ensures k * m >= m
  {
  }

  /// `q*m + r` with `0 <= r < m` has quotient `q` and remainder `r`.
  lemma DivModUnique(a: int, m: int, q: int, r: int)
    requires m > 0 && 0 <= r < m && a == q * m + r
    ensures a / m == q && a % m == r
  {
    var q', r' := a / m, a % m;
    assert (q - q') * m == r' - r;
    if q > q' {
      MulAtLeast(q - q', m);
    } else if q < q' {
      MulAtLeast(q' - q, m);
    }
  }

  lemma MulAtLeastLe(a: nat, b: nat, w: nat)
    requires a <= b
    ensures a * w <= b * w
  {
  }

  lemma MulRegroup(a: int, b: int, c: int)
    ensures a * (b * c) == (a * c) * b
  {
  }

  /// Row `dy` of layer `dz`, `ex` wide, ends inside the `ez` layers of
  /// `ex * ey` cells.
  lemma RowEnd(dz: nat, dy: nat, ex: nat, ey: nat, ez: nat)
    requires dz < ez && dy < ey
    ensures 0 <= dz * (ex * ey) && 0 <= dy * ex
    ensures dz * (ex * ey) + dy * ex + ex <= ez * (ex * ey)
  {
    MulAtLeastLe(dy + 1, ey, ex);
    MulSucc(dy, ex);
    assert ey * ex == ex * ey;
    MulAtLeastLe(dz + 1, ez, ex * ey);
    MulSucc(dz, ex * ey);
  }

  /// Mixed-radix split of `t` into a layer, a row and a column, with `ex`
  /// columns per row and `ex * ey` cells per layer.
  lemma Decompose3(t: nat, ex: nat, ey: nat, ez: nat)
    requires t < ez * (ex * ey)
    ensures ex > 0 && ey > 0
    ensures t / (ex * ey) < ez && (t / ex) % ey < ey && t % ex < ex
    ensures t == t / (ex * ey) * (ex * ey) + (t / ex) % ey * ex + t % ex
  {
    var p := ex * ey;
    assert p > 0;
    var dz, r := t / p, t % p;
    if dz >= ez {
      MulAtLeastLe(ez, dz, p);
    }
    var dy, dx := r / ex, r % ex;
    if dy >= ey {
      MulAtLeastLe(ey, dy, ex);
    }
    MulRegroup(dz, ex, ey);
    assert t == (dz * ey + dy) * ex + dx;
    DivModUnique(t, ex, dz * ey + dy, dx);
    DivModUnique(t / ex, ey, dz, dy);
  }

  /// `Decompose3` with the three digits named.
  lemma Split3(t: nat, ex: nat, ey: nat, ez: nat) returns (dz: nat, dy: nat, dx: nat)
    requires t < ez * (ex * ey)
    ensures ex > 0 && ey > 0 && dz < ez && dy < ey && dx < ex
    ensures dz == t / (ex * ey) && dy == (t / ex) % ey && dx == t % ex
    ensures t == dz * (ex * ey) + dy * ex + dx
  {
    Decompose3(t, ex, ey, ez);
    dz, dy, dx := t / (ex * ey), (t / ex) % ey, t % ex;
  }

  /// The converse of `Decompose3`: a layer, row and column in range give
  /// back themselves.
  lemma Compose3(dz: nat, dy: nat, dx: nat, ex: nat, ey: nat, ez: nat)
    requires dz < ez && dy < ey && dx < ex
    ensures var t := dz * (ex * ey) + dy * ex + dx;
      t < ez * (ex * ey) &&
      t / (ex * ey) == dz && (t / ex) % ey == dy && t % ex == dx
  {
    var t := dz * (ex * ey) + dy * ex + dx;
    MulAtLeastLe(dy, ey - 1, ex);
    assert dy * ex + dx < ex * ey;
    MulAtLeastLe(dz, ez - 1, ex * ey);
    DivModUnique(t, ex * ey, dz, dy * ex + dx);
    MulRegroup(dz, ex, ey);
    assert t == (dz * ey + dy) * ex + dx;
    DivModUnique(t, ex, dz * ey + dy, dx);
    DivModUnique(t / ex, ey, dz, dy);
  }

  /// Row-major numbering `kc = ic + jc*cols` of a `rows` x `cols` grid:
  /// in range, and division by `cols` gives the row and column back.
  lemma RowMajor(jc: nat, ic: nat, rows: nat, cols: nat)
    requires jc < rows && ic < cols
    ensures ic + jc * cols < rows * cols
    ensures (ic + jc * cols) / cols == jc && (ic + jc * cols) % cols == ic
  {
    MulAtLeastLe(jc + 1, rows, cols);
    DivModUnique(ic + jc * cols, cols, jc, ic);
  }

  /// The converse of `RowMajor`: every number below `rows * cols` is one.
  lemma RowMajorSplit(kc: nat, rows: nat, cols: nat)
    requires kc < rows * cols
    ensures cols > 0 && kc / cols < rows && kc % cols < cols
    ensures kc == kc % cols + kc / cols * cols
  {
    if kc / cols >= rows {
      MulAtLeastLe(rows, kc / cols, cols);
    }
  }

  lemma MulSucc(a: int, b: int)
    ensures a * b + b == (a + 1) * b && a * b + b == b * (a + 1)
  {
  }
}

/// One time step of parflow_pfb2vtk.py (lines 23-131): decode the `.pfb`
/// file into its volume, take the SWE layer, flip the DEM, compute the point
/// coordinates and write the binary VTK file.
module Pfb2Vtk {
  import opened Wrappers
  import opened Bytes
  import opened Arith
  import opened Grids
  import opened Pfb
  import Vtk

  /// Lines 81-83: lower-left corner and cell size, in metres.
  const X0: real := 565500.0
  const Y0: real := 4837000.0
  const DH: real := 30.0

  /// Line 52: the layer holding SWE.
  const SweLayer: nat := 10

  /// Lines 93 and 95: coordinate of column or row `i` from `origin`.
  function Coordinate(origin: real, i: nat): real {
    (i as real) * DH + origin
  }

  /// Neighbouring points are `DH` apart, so the coordinates increase
  /// strictly along each axis.
  lemma CoordinateIncreasing(origin: real, i: nat, j: nat)
    requires i < j
    ensures Coordinate(origin, j) - Coordinate(origin, i) == (j - i) as real * DH
    ensures Coordinate(origin, i) < Coordinate(origin, j)
  {
  }

  /// Lines 84-85 and 92-95: `xc` and `yc`, filled one entry at a time.
  method Coordinates(cols: nat, rows: nat) returns (xc: array<real>, yc: array<real>)
    ensures fresh(xc) && fresh(yc) && xc.Length == cols && yc.Length == rows
    ensures forall ic :: 0 <= ic < cols ==> xc[ic] == Coordinate(X0, ic)
    ensures forall jc :: 0 <= jc < rows ==> yc[jc] == Coordinate(Y0, jc)
  {
    xc := new real[cols](_ => 0.0);
    yc := new real[rows](_ => 0.0);
    for ic := 0 to cols
      invariant forall i :: 0 <= i < ic ==> xc[i] == Coordinate(X0, i)
    {
      xc[ic] := (ic as real) * DH + X0;
    }
    for jc := 0 to rows
      invariant forall i :: 0 <= i < cols ==> xc[i] == Coordinate(X0, i)
      invariant forall j :: 0 <= j < jc ==> yc[j] == Coordinate(Y0, j)
    {
      yc[jc] := (jc as real) * DH + Y0;
    }
  }

  /// Line 52, `P = var[:, :, z]`: the `ny` x `nx` grid of layer `z`.
  function Layer(vol: array3<Word>, z: nat): (p: seq<seq<Word>>)
    reads vol
    requires z < vol.Length2
    ensures IsGrid(p, vol.Length0, vol.Length1)
  {
    seq(vol.Length0, r requires 0 <= r < vol.Length0 reads vol =>
      seq(vol.Length1, c requires 0 <= c < vol.Length1 reads vol => vol[r, c, z]))
  }

  /// Lines 58-64: `nn[j1 + Prows*i1] = P[j1, i1]`, the columns outer, so
  /// `nn` is `P` flattened column by column.
  method FlattenColumns(p: seq<seq<Word>>, rows: nat, cols: nat) returns (nn: array<Word>)
    requires IsGrid(p, rows, cols)
    ensures fresh(nn) && nn[..] == FortranFlatten(p, rows, cols)
  {
    ghost var f := FortranFlatten(p, rows, cols);
    nn := new Word[rows * cols](_ => Zero);
    for i1 := 0 to cols
      invariant rows * i1 <= rows * cols
      invariant forall k :: 0 <= k < rows * i1 ==> nn[k] == f[k]
    {
      MulAtLeastLe(i1 + 1, cols, rows);
      for j1 := 0 to rows
        invariant rows * i1 + j1 <= rows * cols
        invariant forall k :: 0 <= k < rows * i1 + j1 ==> nn[k] == f[k]
      {
        FortranFlattenAt(p, rows, cols, j1, i1);
        nn[j1 + rows * i1] := p[j1][i1];
      }
      MulSucc(i1, rows);
    }
    assert nn[..] == f;
  }

  /// Why a time step produces no file.
  datatype ConvertError =
    | PfbFailed(e: PfbError)
    | NoSweLayer
    | DemNotGrid
    | DemTooSmall

  /// What `np.loadtxt` (line 68) reads as a 2-D array whose `shape[1]`
  /// (line 71) exists: rows of equal length, at least two of them, each
  /// at least two long. Ragged rows make `loadtxt` raise ValueError.
  predicate Loadable<T>(dem: seq<seq<T>>) {
    |dem| > 0 && IsGrid(dem, |dem|, |dem[0]|) && TwoD(|dem|, |dem[0]|)
  }

  /// Layer 10 of the decoded volume, `P` of line 52, as `Paint` gives it.
  ghost function SweGrid(p: Pfb): (g: seq<seq<Word>>)
    requires AllWellSized(p.blocks) && p.header.nx >= 0 && p.header.ny >= 0
    ensures IsGrid(g, p.header.ny, p.header.nx)
  {
    seq(p.header.ny, r requires 0 <= r < p.header.ny =>
      seq(p.header.nx, c requires 0 <= c < p.header.nx => Paint(p.blocks, r, c, SweLayer)))
  }

  /// The layer taken from the decoded volume is the SWE grid of the file.
  lemma LayerIsSwe(vol: array3<Word>, p: Pfb)
    requires AllWellSized(p.blocks) && p.header.nx >= 0 && p.header.ny >= 0
    requires Holds(vol, p) && SweLayer < vol.Length2
    ensures Layer(vol, SweLayer) == SweGrid(p)
  {
    var l, g := Layer(vol, SweLayer), SweGrid(p);
    forall r | 0 <= r < |l|
      ensures l[r] == g[r]
    {
      assert forall c :: 0 <= c < |l[r]| ==> l[r][c] == vol[r, c, SweLayer];
    }
  }

  /// The coordinates of `n` columns or rows from `origin`, each packed by
  /// `pack`, the `struct.pack('>d', ...)` of lines 107-108.
  function Packed(origin: real, n: nat, pack: real -> Word): (ws: seq<Word>)
    ensures |ws| == n
  {
    seq(n, i requires 0 <= i < n => pack(Coordinate(origin, i)))
  }

  /// One time step: the `.pfb` bytes `s` and the DEM rows as packed
  /// doubles give the bytes of the VTK file, or the reason there is none.
  ghost function Convert(s: seq<byte>, dem: seq<seq<Word>>, pack: real -> Word): Result<seq<byte>, ConvertError> {
    match Parse(s)
    case Err(e) => Err(PfbFailed(e))
    case Ok(p) =>
      var rows, cols := p.header.ny, p.header.nx;
      if p.header.nz <= SweLayer then Err(NoSweLayer)
      else if !Loadable(dem) then Err(DemNotGrid)
      else if !Spans(Flip(dem), rows, cols) then Err(DemTooSmall)
      else Ok(Vtk.File(cols, rows, Packed(X0, cols, pack), Packed(Y0, rows, pack), Flip(dem), SweGrid(p)))
  }

  /// Lines 23-131 for one time step.
  method ConvertTimestep(s: seq<byte>, dem: seq<seq<Word>>, pack: real -> Word) returns (r: Result<seq<byte>, ConvertError>)
    ensures r == Convert(s, dem, pack)
  {
    var res, vol := Decode(s);
    if res.Err? {
      return Err(PfbFailed(res.error));
    }
    if vol.Length2 <= SweLayer {
      return Err(NoSweLayer);
    }
    if !Loadable(dem) {
      return Err(DemNotGrid);
    }
    var p := Layer(vol, SweLayer);
    var rows, cols := vol.Length0, vol.Length1;
    var nn := FlattenColumns(p, rows, cols);
    var mrflip := Flip(dem);
    var xc, yc := Coordinates(cols, rows);
    if !Spans(mrflip, rows, cols) {
      return Err(DemTooSmall);
    }
    var xw := seq(cols, i requires 0 <= i < cols reads xc => pack(xc[i]));
    var yw := seq(rows, j requires 0 <= j < rows reads yc => pack(yc[j]));
    assert xw == Packed(X0, cols, pack);
    assert yw == Packed(Y0, rows, pack);
    LayerIsSwe(vol, Parse(s).value);
    var out := Vtk.Write(cols, rows, xw, yw, mrflip, p);
    return Ok(out);
  }

  /// A time step that produces a file produces the one `Vtk.File`
  /// describes, from a volume with a layer 10 and a DEM that is a grid
  /// large enough.
  lemma ConvertOk(s: seq<byte>, dem: seq<seq<Word>>, pack: real -> Word, p: Pfb, f: seq<byte>)
    requires Parse(s) == Ok(p) && Convert(s, dem, pack) == Ok(f)
    ensures AllWellSized(p.blocks) && p.header.nx >= 0 && p.header.ny >= 0 && p.header.nz > SweLayer
    ensures Loadable(dem) && Spans(Flip(dem), p.header.ny, p.header.nx)
    ensures f == Vtk.File(p.header.nx, p.header.ny, Packed(X0, p.header.nx, pack), Packed(Y0, p.header.ny, pack),
      Flip(dem), SweGrid(p))
  {
  }

  /// The file of a time step, for the point `kc = ic + jc*cols` of the
  /// `n = rows*cols` points: its 24-byte record is the x of column `ic`,
  /// the y of row `jc` and the elevation of DEM row `|dem| - 1 - jc`; its
  /// elevation is that same word; and its SWE value, in the block that
  /// ends the file, is cell `[jc][ic]` of `swe`, which `ConvertOk` shows
  /// is the layer-10 grid of the decoded volume.
  lemma FileContents(rows: nat, cols: nat, dem: seq<seq<Word>>, pack: real -> Word, swe: seq<seq<Word>>, f: seq<byte>,
      jc: nat, ic: nat, kc: nat)
    requires Spans(Flip(dem), rows, cols) && IsGrid(swe, rows, cols)
    requires f == Vtk.File(cols, rows, Packed(X0, cols, pack), Packed(Y0, rows, pack), Flip(dem), swe)
    requires jc < rows && ic < cols && kc == ic + jc * cols && kc < rows * cols
    ensures jc < |dem| && ic < |dem[|dem| - 1 - jc]|
    ensures var n := rows * cols;
      var h, e, w := Vtk.PointsStart(cols, rows), Vtk.ElevationsStart(cols, rows), Vtk.SweStart(cols, rows);
      var x: seq<byte> := pack(Coordinate(X0, ic));
      |f| == w + 8 * n &&
      f[h + 24 * kc .. h + 24 * kc + 24] == x + pack(Coordinate(Y0, jc)) + dem[|dem| - 1 - jc][ic] &&
      f[e + 8 * kc .. e + 8 * kc + 8] == dem[|dem| - 1 - jc][ic] &&
      f[w + 8 * kc .. w + 8 * kc + 8] == swe[jc][ic]
  {
    var xw, yw, mrflip := Packed(X0, cols, pack), Packed(Y0, rows, pack), Flip(dem);
    FlipAt(dem, jc);
    assert xw[ic] == pack(Coordinate(X0, ic)) && yw[jc] == pack(Coordinate(Y0, jc));
    Vtk.FileLayout(cols, rows, xw, yw, mrflip, swe);
    Vtk.PointInFile(cols, rows, xw, yw, mrflip, swe, jc, ic, kc);
    Vtk.ElevationInFile(cols, rows, xw, yw, mrflip, swe, jc, ic, kc);
    Vtk.SweInFile(cols, rows, xw, yw, mrflip, swe, jc, ic, kc);
  }
}

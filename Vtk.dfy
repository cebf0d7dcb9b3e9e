/// The legacy binary VTK file parflow_pfb2vtk.py writes for one time step
/// (lines 97-131): a structured grid of `cols` x `rows` x 1 points, the
/// coordinates of each point, and two point scalars, `Elevation` and `SWE`.
/// Every number after the text lines is a big-endian f8 (`struct.pack('>d')`),
/// here an opaque `Word`.
module Vtk {
  import opened Wrappers
  import opened Bytes
  import opened Text
  import opened Arith
  import opened Grids

  /// Lines 75-78 and 98.
  const Preamble: string := "# vtk DataFile Version 2.0\nExample\nBINARY\nDATASET STRUCTURED_GRID\n"

  /// Line 99, with `dimZ = 1`.
  function DimensionsLine(cols: nat, rows: nat): string {
    "DIMENSIONS" + " " + Dec(cols) + " " + Dec(rows) + " " + "1" + "\n"
  }

  /// Line 100.
  function PointsLine(n: nat): string {
    "POINTS" + " " + Dec(n) + " " + "double" + "\n"
  }

  /// Lines 113-116: the newline closing the coordinates, then the
  /// heading of the first scalar.
  function ElevationLines(n: nat): string {
    "\nPOINT_DATA " + Dec(n) + "\nSCALARS Elevation double\nLOOKUP_TABLE default\n"
  }

  /// Lines 123-125.
  const SweLines: string := "\nSCALARS SWE double\nLOOKUP_TABLE default\n"

  /// The text in front of the coordinates.
  function HeaderText(cols: nat, rows: nat): string {
    Preamble + DimensionsLine(cols, rows) + PointsLine(cols * rows)
  }

  /// Where the coordinates start: right after the header text.
  function PointsStart(cols: nat, rows: nat): nat {
    |HeaderText(cols, rows)|
  }

  /// Where the elevations start: after 24 bytes per point and the lines
  /// naming the first scalar.
  function ElevationsStart(cols: nat, rows: nat): nat {
    PointsStart(cols, rows) + 24 * (rows * cols) + |ElevationLines(cols * rows)|
  }

  /// Where the SWE values start: after 8 bytes per point and the lines
  /// naming the second scalar.
  function SweStart(cols: nat, rows: nat): nat {
    ElevationsStart(cols, rows) + 8 * (rows * cols) + |SweLines|
  }

  /// Lines 104-112: the x, y and z of the point in row `jc`, column `ic`.
  function PointRecord(xw: seq<Word>, yw: seq<Word>, dem: seq<seq<Word>>, jc: nat, ic: nat): seq<byte>
    requires ic < |xw| && jc < |yw| && jc < |dem| && ic < |dem[jc]|
  {
    var x: seq<byte> := xw[ic];
    x + yw[jc] + dem[jc][ic]
  }

  /// The points in the order of line 103, `kc = ic + jc*cols`: row by row,
  /// the column running fastest.
  function PointRecords(xw: seq<Word>, yw: seq<Word>, dem: seq<seq<Word>>, rows: nat, cols: nat): (rs: seq<seq<byte>>)
    requires |xw| == cols && |yw| == rows && Spans(dem, rows, cols)
    ensures |rs| == rows * cols
  {
    seq(rows * cols, kc requires 0 <= kc < rows * cols =>
      RowMajorSplit(kc, rows, cols);
      PointRecord(xw, yw, dem, kc / cols, kc % cols))
  }

  /// One scalar per point, in the same order (lines 117-122 and 126-131).
  function Samples(g: seq<seq<Word>>, rows: nat, cols: nat): (vs: seq<Word>)
    requires Spans(g, rows, cols)
    ensures |vs| == rows * cols
  {
    seq(rows * cols, kc requires 0 <= kc < rows * cols =>
      RowMajorSplit(kc, rows, cols);
      g[kc / cols][kc % cols])
  }

  /// The whole file: `xw` and `yw` are the packed coordinates of the
  /// columns and rows, `dem` the packed (already flipped) elevations and
  /// `swe` the SWE layer. Nothing follows the last SWE value.
  function File(cols: nat, rows: nat, xw: seq<Word>, yw: seq<Word>, dem: seq<seq<Word>>, swe: seq<seq<Word>>): seq<byte>
    requires |xw| == cols && |yw| == rows && Spans(dem, rows, cols) && Spans(swe, rows, cols)
  {
    var n := cols * rows;
    Ascii(HeaderText(cols, rows)) + Concat(PointRecords(xw, yw, dem, rows, cols)) +
    Ascii(ElevationLines(n)) + Concat(Samples(dem, rows, cols)) +
    Ascii(SweLines) + Concat(Samples(swe, rows, cols))
  }

  /// Lines 102-111 for row `jc`: the 24-byte records of its points,
  /// after those of the rows below it.
  method WritePointRow(out0: seq<byte>, xw: seq<Word>, yw: seq<Word>, dem: seq<seq<Word>>, rows: nat, cols: nat,
      jc: nat, ghost base: seq<byte>)
    returns (out: seq<byte>)
    requires |xw| == cols && |yw| == rows && Spans(dem, rows, cols) && jc < rows
    requires jc * cols <= rows * cols && out0 == base + Concat(PointRecords(xw, yw, dem, rows, cols)[..jc * cols])
    ensures jc * cols + cols <= rows * cols
    ensures out == base + Concat(PointRecords(xw, yw, dem, rows, cols)[..jc * cols + cols])
  {
    ghost var recs := PointRecords(xw, yw, dem, rows, cols);
    out := out0;
    var ic := 0;
    while ic < cols
      invariant 0 <= ic <= cols
      invariant jc * cols + ic <= rows * cols
      invariant out == base + Concat(recs[..jc * cols + ic])
    {
      PointsSnoc(xw, yw, dem, rows, cols, jc, ic);
      var x: seq<byte> := xw[ic];
      var rec := x + yw[jc] + dem[jc][ic];
      assert rec == PointRecord(xw, yw, dem, jc, ic);
      out := out + rec;
      ic := ic + 1;
    }
  }

  /// Lines 101-111: the coordinate loops, appending 24 bytes per point.
  method WritePoints(out0: seq<byte>, xw: seq<Word>, yw: seq<Word>, dem: seq<seq<Word>>, rows: nat, cols: nat)
    returns (out: seq<byte>)
    requires |xw| == cols && |yw| == rows && Spans(dem, rows, cols)
    ensures out == out0 + Concat(PointRecords(xw, yw, dem, rows, cols))
  {
    ghost var recs := PointRecords(xw, yw, dem, rows, cols);
    out := out0;
    var jc := 0;
    while jc < rows
      invariant 0 <= jc <= rows
      invariant jc * cols <= rows * cols
      invariant out == out0 + Concat(recs[..jc * cols])
    {
      out := WritePointRow(out, xw, yw, dem, rows, cols, jc, out0);
      MulSucc(jc, cols);
      jc := jc + 1;
    }
    assert recs[..rows * cols] == recs;
  }

  /// One more point record in point order.
  lemma PointsSnoc(xw: seq<Word>, yw: seq<Word>, dem: seq<seq<Word>>, rows: nat, cols: nat, jc: nat, ic: nat)
    requires |xw| == cols && |yw| == rows && Spans(dem, rows, cols) && jc < rows && ic < cols
    ensures var kc, recs := ic + jc * cols, PointRecords(xw, yw, dem, rows, cols);
      kc + 1 <= rows * cols &&
      Concat(recs[..kc + 1]) == Concat(recs[..kc]) + PointRecord(xw, yw, dem, jc, ic)
  {
    var kc := ic + jc * cols;
    RowMajor(jc, ic, rows, cols);
    ConcatSnoc(PointRecords(xw, yw, dem, rows, cols), kc);
  }

  /// One more value of `g` in point order.
  lemma SamplesSnoc(g: seq<seq<Word>>, rows: nat, cols: nat, jc: nat, ic: nat)
    requires Spans(g, rows, cols) && jc < rows && ic < cols
    ensures var kc := ic + jc * cols;
      kc + 1 <= rows * cols &&
      Concat(Samples(g, rows, cols)[..kc + 1]) == Concat(Samples(g, rows, cols)[..kc]) + g[jc][ic]
  {
    var kc := ic + jc * cols;
    RowMajor(jc, ic, rows, cols);
    ConcatSnoc(Samples(g, rows, cols), kc);
  }

  /// Lines 118-122 (and 127-131) for row `jc`: its values, after those of
  /// the rows below it.
  method WriteSampleRow(out0: seq<byte>, g: seq<seq<Word>>, rows: nat, cols: nat, jc: nat, ghost base: seq<byte>)
    returns (out: seq<byte>)
    requires Spans(g, rows, cols) && jc < rows
    requires jc * cols <= rows * cols && out0 == base + Concat(Samples(g, rows, cols)[..jc * cols])
    ensures jc * cols + cols <= rows * cols
    ensures out == base + Concat(Samples(g, rows, cols)[..jc * cols + cols])
  {
    ghost var vs := Samples(g, rows, cols);
    out := out0;
    var ic := 0;
    while ic < cols
      invariant 0 <= ic <= cols
      invariant jc * cols + ic <= rows * cols
      invariant out == base + Concat(vs[..jc * cols + ic])
    {
      SamplesSnoc(g, rows, cols, jc, ic);
      out := out + g[jc][ic];
      ic := ic + 1;
    }
  }

  /// Lines 117-122 (and 126-131): one grid's values in point order.
  method WriteSamples(out0: seq<byte>, g: seq<seq<Word>>, rows: nat, cols: nat) returns (out: seq<byte>)
    requires Spans(g, rows, cols)
    ensures out == out0 + Concat(Samples(g, rows, cols))
  {
    ghost var vs := Samples(g, rows, cols);
    out := out0;
    var jc := 0;
    while jc < rows
      invariant 0 <= jc <= rows
      invariant jc * cols <= rows * cols
      invariant out == out0 + Concat(vs[..jc * cols])
    {
      out := WriteSampleRow(out, g, rows, cols, jc, out0);
      MulSucc(jc, cols);
      jc := jc + 1;
    }
    assert vs[..rows * cols] == vs;
  }

  /// Lines 97-131: the file, written piece by piece.
  method Write(cols: nat, rows: nat, xw: seq<Word>, yw: seq<Word>, dem: seq<seq<Word>>, swe: seq<seq<Word>>)
    returns (out: seq<byte>)
    requires |xw| == cols && |yw| == rows && Spans(dem, rows, cols) && Spans(swe, rows, cols)
    ensures out == File(cols, rows, xw, yw, dem, swe)
  {
    var points := cols * rows;
    out := Ascii(HeaderText(cols, rows));
    out := WritePoints(out, xw, yw, dem, rows, cols);
    out := out + Ascii(ElevationLines(points));
    out := WriteSamples(out, dem, rows, cols);
    out := out + Ascii(SweLines);
    out := WriteSamples(out, swe, rows, cols);
  }

  /// The file cut into its six pieces, each where the `...Start`
  /// functions put it.
  lemma FileSplit(cols: nat, rows: nat, xw: seq<Word>, yw: seq<Word>, dem: seq<seq<Word>>, swe: seq<seq<Word>>)
    requires |xw| == cols && |yw| == rows && Spans(dem, rows, cols) && Spans(swe, rows, cols)
    ensures var n := rows * cols;
      var a, b, c := Ascii(HeaderText(cols, rows)), Concat(PointRecords(xw, yw, dem, rows, cols)), Ascii(ElevationLines(cols * rows));
      var d, e, g := Concat(Samples(dem, rows, cols)), Ascii(SweLines), Concat(Samples(swe, rows, cols));
      File(cols, rows, xw, yw, dem, swe) == a + b + c + d + e + g &&
      |a| == PointsStart(cols, rows) && |b| == 24 * n &&
      |a| + |b| + |c| == ElevationsStart(cols, rows) && |d| == 8 * n &&
      |a| + |b| + |c| + |d| + |e| == SweStart(cols, rows) && |g| == 8 * n
  {
    PointBytes(xw, yw, dem, rows, cols);
    SampleBytes(dem, rows, cols);
    SampleBytes(swe, rows, cols);
  }

  /// 24 bytes per point record.
  lemma PointBytes(xw: seq<Word>, yw: seq<Word>, dem: seq<seq<Word>>, rows: nat, cols: nat)
    requires |xw| == cols && |yw| == rows && Spans(dem, rows, cols)
    ensures |Concat(PointRecords(xw, yw, dem, rows, cols))| == 24 * (rows * cols)
  {
    var recs := PointRecords(xw, yw, dem, rows, cols);
    forall i | 0 <= i < |recs|
      ensures |recs[i]| == 24
    {
      RowMajorSplit(i, rows, cols);
    }
    ConcatLength(recs, 24);
  }

  /// 8 bytes per sample.
  lemma SampleBytes(g: seq<seq<Word>>, rows: nat, cols: nat)
    requires Spans(g, rows, cols)
    ensures |Concat(Samples(g, rows, cols))| == 8 * (rows * cols)
  {
    ConcatLength(Samples(g, rows, cols), 8);
  }

  /// The file opens with the header text and ends with the SWE block,
  /// 8 bytes per point.
  lemma FileLayout(cols: nat, rows: nat, xw: seq<Word>, yw: seq<Word>, dem: seq<seq<Word>>, swe: seq<seq<Word>>)
    requires |xw| == cols && |yw| == rows && Spans(dem, rows, cols) && Spans(swe, rows, cols)
    ensures |File(cols, rows, xw, yw, dem, swe)| == SweStart(cols, rows) + 8 * (rows * cols)
    ensures File(cols, rows, xw, yw, dem, swe)[..PointsStart(cols, rows)] == Ascii(HeaderText(cols, rows))
  {
    var a, b, c := Ascii(HeaderText(cols, rows)), Concat(PointRecords(xw, yw, dem, rows, cols)), Ascii(ElevationLines(cols * rows));
    var d, e, g := Concat(Samples(dem, rows, cols)), Ascii(SweLines), Concat(Samples(swe, rows, cols));
    FileSplit(cols, rows, xw, yw, dem, swe);
    FirstOfSix(File(cols, rows, xw, yw, dem, swe), a, b, c, d, e, g, PointsStart(cols, rows));
  }

  /// The coordinates follow the header, 24 bytes per point.
  lemma FilePoints(cols: nat, rows: nat, xw: seq<Word>, yw: seq<Word>, dem: seq<seq<Word>>, swe: seq<seq<Word>>)
    requires |xw| == cols && |yw| == rows && Spans(dem, rows, cols) && Spans(swe, rows, cols)
    ensures PointsStart(cols, rows) + 24 * (rows * cols) <= |File(cols, rows, xw, yw, dem, swe)|
    ensures File(cols, rows, xw, yw, dem, swe)[PointsStart(cols, rows)..PointsStart(cols, rows) + 24 * (rows * cols)]
      == Concat(PointRecords(xw, yw, dem, rows, cols))
  {
    var a, b, c := Ascii(HeaderText(cols, rows)), Concat(PointRecords(xw, yw, dem, rows, cols)), Ascii(ElevationLines(cols * rows));
    var d, e, g := Concat(Samples(dem, rows, cols)), Ascii(SweLines), Concat(Samples(swe, rows, cols));
    FileSplit(cols, rows, xw, yw, dem, swe);
    SecondOfSix(File(cols, rows, xw, yw, dem, swe), a, b, c, d, e, g, PointsStart(cols, rows), PointsStart(cols, rows) + 24 * (rows * cols));
  }

  /// The elevations, 8 bytes per point, at `ElevationsStart`.
  lemma FileElevations(cols: nat, rows: nat, xw: seq<Word>, yw: seq<Word>, dem: seq<seq<Word>>, swe: seq<seq<Word>>)
    requires |xw| == cols && |yw| == rows && Spans(dem, rows, cols) && Spans(swe, rows, cols)
    ensures ElevationsStart(cols, rows) + 8 * (rows * cols) <= |File(cols, rows, xw, yw, dem, swe)|
    ensures File(cols, rows, xw, yw, dem, swe)[ElevationsStart(cols, rows)..ElevationsStart(cols, rows) + 8 * (rows * cols)]
      == Concat(Samples(dem, rows, cols))
  {
    var a, b, c := Ascii(HeaderText(cols, rows)), Concat(PointRecords(xw, yw, dem, rows, cols)), Ascii(ElevationLines(cols * rows));
    var d, e, g := Concat(Samples(dem, rows, cols)), Ascii(SweLines), Concat(Samples(swe, rows, cols));
    FileSplit(cols, rows, xw, yw, dem, swe);
    FourthOfSix(File(cols, rows, xw, yw, dem, swe), a, b, c, d, e, g, ElevationsStart(cols, rows), ElevationsStart(cols, rows) + 8 * (rows * cols));
  }

  /// The SWE values, 8 bytes per point, from `SweStart` to the end.
  lemma FileSwe(cols: nat, rows: nat, xw: seq<Word>, yw: seq<Word>, dem: seq<seq<Word>>, swe: seq<seq<Word>>)
    requires |xw| == cols && |yw| == rows && Spans(dem, rows, cols) && Spans(swe, rows, cols)
    ensures SweStart(cols, rows) + 8 * (rows * cols) == |File(cols, rows, xw, yw, dem, swe)|
    ensures File(cols, rows, xw, yw, dem, swe)[SweStart(cols, rows)..SweStart(cols, rows) + 8 * (rows * cols)]
      == Concat(Samples(swe, rows, cols))
  {
    var a, b, c := Ascii(HeaderText(cols, rows)), Concat(PointRecords(xw, yw, dem, rows, cols)), Ascii(ElevationLines(cols * rows));
    var d, e, g := Concat(Samples(dem, rows, cols)), Ascii(SweLines), Concat(Samples(swe, rows, cols));
    FileSplit(cols, rows, xw, yw, dem, swe);
    LastOfSix(File(cols, rows, xw, yw, dem, swe), a, b, c, d, e, g, SweStart(cols, rows), SweStart(cols, rows) + 8 * (rows * cols));
  }

  /// The point with `kc = ic + jc*cols` is the `kc`-th 24-byte record:
  /// x of column `ic`, y of row `jc`, then the elevation at `[jc][ic]`.
  lemma PointAt(xw: seq<Word>, yw: seq<Word>, dem: seq<seq<Word>>, rows: nat, cols: nat, jc: nat, ic: nat)
    requires |xw| == cols && |yw| == rows && Spans(dem, rows, cols)
    requires jc < rows && ic < cols
    ensures var kc := ic + jc * cols;
      var ps := Concat(PointRecords(xw, yw, dem, rows, cols));
      24 * kc + 24 <= |ps| &&
      ps[24 * kc .. 24 * kc + 24] == PointRecord(xw, yw, dem, jc, ic)
  {
    var recs := PointRecords(xw, yw, dem, rows, cols);
    forall i | 0 <= i < |recs|
      ensures |recs[i]| == 24
    {
      RowMajorSplit(i, rows, cols);
    }
    RowMajor(jc, ic, rows, cols);
    var kc := ic + jc * cols;
    ConcatChunk(recs, 24, kc);
    assert kc * 24 == 24 * kc;
  }

  /// The value for point `kc = ic + jc*cols` is the `kc`-th 8-byte word.
  lemma SampleAt(g: seq<seq<Word>>, rows: nat, cols: nat, jc: nat, ic: nat)
    requires Spans(g, rows, cols) && jc < rows && ic < cols
    ensures var kc := ic + jc * cols;
      var vs := Concat(Samples(g, rows, cols));
      8 * kc + 8 <= |vs| && vs[8 * kc .. 8 * kc + 8] == g[jc][ic]
  {
    RowMajor(jc, ic, rows, cols);
    var kc := ic + jc * cols;
    ConcatChunk(Samples(g, rows, cols), 8, kc);
    assert kc * 8 == 8 * kc;
  }

  /// Piece `piece` at offset `o` of block `blk`, which sits at `h` in `f`,
  /// sits at `h + o` in `f`.
  lemma PieceAt<T>(f: seq<T>, h: nat, blk: seq<T>, o: nat, piece: seq<T>)
    requires h + |blk| <= |f| && f[h..h + |blk|] == blk
    requires o + |piece| <= |blk| && blk[o..o + |piece|] == piece
    ensures f[h + o .. h + o + |piece|] == piece
  {
    SliceOfSlice(f, h, h + |blk|, o, o + |piece|);
  }

  /// Record `kc = ic + jc*cols` of a block of point records at `h`.
  lemma PointInBlock(f: seq<byte>, h: nat, xw: seq<Word>, yw: seq<Word>, dem: seq<seq<Word>>, rows: nat, cols: nat,
      jc: nat, ic: nat, kc: nat)
    requires |xw| == cols && |yw| == rows && Spans(dem, rows, cols)
    requires jc < rows && ic < cols && kc == ic + jc * cols && kc < rows * cols
    requires h + 24 * (rows * cols) <= |f| && f[h..h + 24 * (rows * cols)] == Concat(PointRecords(xw, yw, dem, rows, cols))
    ensures f[h + 24 * kc .. h + 24 * kc + 24] == PointRecord(xw, yw, dem, jc, ic)
  {
    PointAt(xw, yw, dem, rows, cols, jc, ic);
    PieceAt(f, h, f[h..h + 24 * (rows * cols)], 24 * kc, PointRecord(xw, yw, dem, jc, ic));
  }

  /// Value `kc = ic + jc*cols` of a block of samples of `g` at `h`.
  lemma SampleInBlock(f: seq<byte>, h: nat, g: seq<seq<Word>>, rows: nat, cols: nat, jc: nat, ic: nat, kc: nat)
    requires Spans(g, rows, cols)
    requires jc < rows && ic < cols && kc == ic + jc * cols && kc < rows * cols
    requires h + 8 * (rows * cols) <= |f| && f[h..h + 8 * (rows * cols)] == Concat(Samples(g, rows, cols))
    ensures f[h + 8 * kc .. h + 8 * kc + 8] == g[jc][ic]
  {
    SampleAt(g, rows, cols, jc, ic);
    PieceAt(f, h, f[h..h + 8 * (rows * cols)], 8 * kc, g[jc][ic]);
  }

  /// The 24-byte record of point `kc = ic + jc*cols`: x of column `ic`,
  /// y of row `jc`, then the elevation at `[jc][ic]`.
  lemma PointInFile(cols: nat, rows: nat, xw: seq<Word>, yw: seq<Word>, dem: seq<seq<Word>>, swe: seq<seq<Word>>,
      jc: nat, ic: nat, kc: nat)
    requires |xw| == cols && |yw| == rows && Spans(dem, rows, cols) && Spans(swe, rows, cols)
    requires jc < rows && ic < cols && kc == ic + jc * cols && kc < rows * cols
    ensures var h := PointsStart(cols, rows);
      h + 24 * kc + 24 <= |File(cols, rows, xw, yw, dem, swe)| &&
      File(cols, rows, xw, yw, dem, swe)[h + 24 * kc .. h + 24 * kc + 24] == PointRecord(xw, yw, dem, jc, ic)
  {
    FilePoints(cols, rows, xw, yw, dem, swe);
    PointInBlock(File(cols, rows, xw, yw, dem, swe), PointsStart(cols, rows), xw, yw, dem, rows, cols, jc, ic, kc);
  }

  /// The elevation of point `kc = ic + jc*cols`.
  lemma ElevationInFile(cols: nat, rows: nat, xw: seq<Word>, yw: seq<Word>, dem: seq<seq<Word>>, swe: seq<seq<Word>>,
      jc: nat, ic: nat, kc: nat)
    requires |xw| == cols && |yw| == rows && Spans(dem, rows, cols) && Spans(swe, rows, cols)
    requires jc < rows && ic < cols && kc == ic + jc * cols && kc < rows * cols
    ensures var e := ElevationsStart(cols, rows);
      e + 8 * kc + 8 <= |File(cols, rows, xw, yw, dem, swe)| &&
      File(cols, rows, xw, yw, dem, swe)[e + 8 * kc .. e + 8 * kc + 8] == dem[jc][ic]
  {
    FileElevations(cols, rows, xw, yw, dem, swe);
    SampleInBlock(File(cols, rows, xw, yw, dem, swe), ElevationsStart(cols, rows), dem, rows, cols, jc, ic, kc);
  }

  /// The SWE value of point `kc = ic + jc*cols`.
  lemma SweInFile(cols: nat, rows: nat, xw: seq<Word>, yw: seq<Word>, dem: seq<seq<Word>>, swe: seq<seq<Word>>,
      jc: nat, ic: nat, kc: nat)
    requires |xw| == cols && |yw| == rows && Spans(dem, rows, cols) && Spans(swe, rows, cols)
    requires jc < rows && ic < cols && kc == ic + jc * cols && kc < rows * cols
    ensures var w := SweStart(cols, rows);
      w + 8 * kc + 8 <= |File(cols, rows, xw, yw, dem, swe)| &&
      File(cols, rows, xw, yw, dem, swe)[w + 8 * kc .. w + 8 * kc + 8] == swe[jc][ic]
  {
    FileSwe(cols, rows, xw, yw, dem, swe);
    SampleInBlock(File(cols, rows, xw, yw, dem, swe), SweStart(cols, rows), swe, rows, cols, jc, ic, kc);
  }

  /// A reader of the `DIMENSIONS` line: its fields after `str.split()`.
  function ReadDimensions(line: string): (r: Option<(nat, nat)>)
  {
    var ts := Tokens(line);
    if |ts| == 4 && ts[0] == "DIMENSIONS" && AllDigits(ts[1]) && AllDigits(ts[2]) && ts[3] == "1"
    then Some((DigitsValue(ts[1]), DigitsValue(ts[2])))
    else None
  }

  /// `str.split()` of the `DIMENSIONS` line.
  lemma DimensionsTokens(cols: nat, rows: nat)
    ensures Tokens(DimensionsLine(cols, rows)) == ["DIMENSIONS", Dec(cols), Dec(rows), "1"]
  {
    DecNoSpace(cols);
    DecNoSpace(rows);
    assert NoSpace("DIMENSIONS");
    TokensFour("DIMENSIONS", Dec(cols), Dec(rows), "1", " ", "\n");
  }

  /// The `DIMENSIONS` line gives the grid's column and row counts back.
  lemma ReadDimensionsLine(cols: nat, rows: nat)
    ensures ReadDimensions(DimensionsLine(cols, rows)) == Some((cols, rows))
  {
    DimensionsTokens(cols, rows);
    DecRoundTrip(cols);
    DecRoundTrip(rows);
  }

  /// A reader of the `POINTS` line: the point count it announces.
  function ReadPoints(line: string): (r: Option<nat>)
  {
    var ts := Tokens(line);
    if |ts| == 3 && ts[0] == "POINTS" && AllDigits(ts[1]) && ts[2] == "double"
    then Some(DigitsValue(ts[1]))
    else None
  }

  /// `str.split()` of the `POINTS` line.
  lemma PointsTokens(n: nat)
    ensures Tokens(PointsLine(n)) == ["POINTS", Dec(n), "double"]
  {
    DecNoSpace(n);
    assert NoSpace("POINTS") && NoSpace("double");
    TokensSeparated("POINTS", Dec(n), "double", " ", "\n");
  }

  /// The `POINTS` line of a `cols` x `rows` grid announces `cols * rows`
  /// points, one per DEM cell.
  lemma ReadPointsLine(cols: nat, rows: nat)
    ensures ReadPoints(PointsLine(cols * rows)) == Some(cols * rows)
  {
    PointsTokens(cols * rows);
    DecRoundTrip(cols * rows);
  }
}

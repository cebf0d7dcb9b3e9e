/// The grid transforms of pfclmConvert.py that prepare ParFlow and CLM
/// inputs: the DEM and soil maps as `.sa` value lists, the land-cover
/// remap to CLM vegetation classes, and the soil indicator stack.
///
/// numpy's `np.reshape(x, n, 1)` passes `1` as the `order` argument, which
/// the numpy of this Python 2 code read as Fortran order: the flattened
/// grid lists the first index fastest. All three reshapes here are
/// modelled that way.
module PfclmConvert {
  import opened Wrappers
  import opened Arith
  import opened Text
  import opened Grids

  /// `flipud`, `transpose`, then the Fortran-order reshape: the cells of a
  /// `rows` x `cols` map from the bottom row up, each row left to right.
  function BottomUp<T>(g: seq<seq<T>>, rows: nat, cols: nat): (v: seq<T>)
    requires IsGrid(g, rows, cols)
    ensures |v| == rows * cols
  {
    FlipGrid(g, rows, cols);
    FortranFlatten(Transpose(Flip(g), rows, cols), cols, rows)
  }

  /// Position `c + r*cols` holds the cell of row `r` counted from the
  /// bottom, column `c`.
  lemma BottomUpAt<T>(g: seq<seq<T>>, rows: nat, cols: nat, r: nat, c: nat)
    requires IsGrid(g, rows, cols) && r < rows && c < cols
    ensures |BottomUp(g, rows, cols)| == rows * cols
    ensures c + r * cols < rows * cols
    ensures BottomUp(g, rows, cols)[c + r * cols] == g[rows - 1 - r][c]
  {
    FlipGrid(g, rows, cols);
    FortranFlattenAt(Transpose(Flip(g), rows, cols), cols, rows, c, r);
    FlipAt(g, r);
    assert cols * r == r * cols;
  }

  /// The inverse of `BottomUp`: the map back from its value list.
  function Unflatten<T>(v: seq<T>, rows: nat, cols: nat): (g: seq<seq<T>>)
    requires |v| == rows * cols
    ensures IsGrid(g, rows, cols)
  {
    seq(rows, r requires 0 <= r < rows => seq(cols, c requires 0 <= c < cols =>
      RowMajor(rows - 1 - r, c, rows, cols);
      v[c + (rows - 1 - r) * cols]))
  }

  lemma UnflattenBottomUp<T>(g: seq<seq<T>>, rows: nat, cols: nat)
    requires IsGrid(g, rows, cols)
    ensures Unflatten(BottomUp(g, rows, cols), rows, cols) == g
  {
    var u := Unflatten(BottomUp(g, rows, cols), rows, cols);
    forall r | 0 <= r < rows
      ensures u[r] == g[r]
    {
      forall c | 0 <= c < cols
        ensures u[r][c] == g[r][c]
      {
        BottomUpAt(g, rows, cols, rows - 1 - r, c);
      }
    }
  }

  /// `np.meshgrid(linspace(1, rows, rows), linspace(1, cols, cols))`: two
  /// `cols` x `rows` grids, the first holding row numbers, the second
  /// column numbers, both counted from 1.
  function MeshRows(rows: nat, cols: nat): (m: seq<seq<nat>>)
    ensures IsGrid(m, cols, rows)
  {
    seq(cols, a requires 0 <= a < cols => seq(rows, b requires 0 <= b < rows => b + 1))
  }

  function MeshCols(rows: nat, cols: nat): (m: seq<seq<nat>>)
    ensures IsGrid(m, cols, rows)
  {
    seq(cols, a requires 0 <= a < cols => seq(rows, b requires 0 <= b < rows => a + 1))
  }

  /// The x coordinates (`Sxc`, `Sx`) and y coordinates (`Syc`, `Sy`) of
  /// the flattened cells.
  function ColumnNumbers(rows: nat, cols: nat): seq<nat> {
    FortranFlatten(MeshCols(rows, cols), cols, rows)
  }

  function RowNumbers(rows: nat, cols: nat): seq<nat> {
    FortranFlatten(MeshRows(rows, cols), cols, rows)
  }

  /// The cell at position `c + r*cols` is numbered `(c+1, r+1)`, the row
  /// counted from the bottom, like the values of `BottomUp`.
  lemma NumbersAt(rows: nat, cols: nat, r: nat, c: nat)
    requires r < rows && c < cols
    ensures |ColumnNumbers(rows, cols)| == rows * cols && |RowNumbers(rows, cols)| == rows * cols
    ensures c + r * cols < rows * cols
    ensures ColumnNumbers(rows, cols)[c + r * cols] == c + 1
    ensures RowNumbers(rows, cols)[c + r * cols] == r + 1
  {
    FortranFlattenAt(MeshCols(rows, cols), cols, rows, c, r);
    FortranFlattenAt(MeshRows(rows, cols), cols, rows, c, r);
    assert cols * r == r * cols;
  }

  /// An `.sa` file: its header line and its values, one per line.
  datatype SaFile<T> = SaFile(header: string, values: seq<T>)

  /// `asciiDEM2sa` (lines 54-66): the header `cols  rows  1`, the
  /// elevations bottom row first, and the map's shape; nothing when the
  /// shape lookup of lines 55-57 fails.
  function DemToSa<T>(mr: seq<seq<T>>, rows: nat, cols: nat): Option<(SaFile<T>, nat, nat)>
    requires IsGrid(mr, rows, cols)
  {
    if !TwoD(rows, cols) then None
    else Some((SaFile(Dec(cols) + "  " + Dec(rows) + "  1", BottomUp(mr, rows, cols)), rows, cols))
  }

  /// What the `.sa` file holds: the map's `rows*cols` values, from which
  /// the map is recovered whole (`BottomUpAt` gives each position).
  lemma DemToSaValues<T>(mr: seq<seq<T>>, rows: nat, cols: nat)
    requires IsGrid(mr, rows, cols)
    ensures DemToSa(mr, rows, cols).None? <==> !TwoD(rows, cols)
    ensures DemToSa(mr, rows, cols).Some? ==> var (sa, rs, cs) := DemToSa(mr, rows, cols).value;
      rs == rows && cs == cols &&
      |sa.values| == rows * cols &&
      Unflatten(sa.values, rows, cols) == mr
  {
    UnflattenBottomUp(mr, rows, cols);
  }

  /// `asciiSoil2sa` (lines 266-282) as the lines of the file it writes,
  /// each with its newline: the header `cols\trows\tnsl\t`, then one
  /// tab-separated `(x, y, class)` triple per cell, the class as `%d`
  /// prints a float.
  function SoilLine(x: nat, y: nat, v: real): string {
    Dec(x) + "\t" + Dec(y) + "\t" + DecInt(Trunc(v)) + "\n"
  }

  function SoilLines(ms: seq<seq<real>>, rows: nat, cols: nat): (lines: seq<string>)
    requires IsGrid(ms, rows, cols)
    ensures |lines| == rows * cols
  {
    var sx, sy, sz := ColumnNumbers(rows, cols), RowNumbers(rows, cols), BottomUp(ms, rows, cols);
    seq(rows * cols, p requires 0 <= p < rows * cols => SoilLine(sx[p], sy[p], sz[p]))
  }

  function SoilHeader(rows: nat, cols: nat, nsl: int): string {
    Dec(cols) + "\t" + Dec(rows) + "\t" + DecInt(nsl) + "\t\n"
  }

  function SoilFile(ms: seq<seq<real>>, rows: nat, cols: nat, nsl: int): (lines: seq<string>)
    requires IsGrid(ms, rows, cols)
  {
    [SoilHeader(rows, cols, nsl)] + SoilLines(ms, rows, cols)
  }

  /// `asciiSoil2sa`: the soil file, or nothing when the shape lookup of
  /// lines 267-269 fails.
  function SoilToSa(ms: seq<seq<real>>, rows: nat, cols: nat, nsl: int): Option<seq<string>>
    requires IsGrid(ms, rows, cols)
  {
    if TwoD(rows, cols) then Some(SoilFile(ms, rows, cols, nsl)) else None
  }

  lemma SoilLinesAt(ms: seq<seq<real>>, rows: nat, cols: nat, r: nat, c: nat, p: nat)
    requires IsGrid(ms, rows, cols) && r < rows && c < cols && p == c + r * cols
    ensures p < rows * cols
    ensures SoilLines(ms, rows, cols)[p] == SoilLine(c + 1, r + 1, ms[rows - 1 - r][c])
  {
    NumbersAt(rows, cols, r, c);
    BottomUpAt(ms, rows, cols, r, c);
    var sx, sy, sz := ColumnNumbers(rows, cols), RowNumbers(rows, cols), BottomUp(ms, rows, cols);
    assert SoilLines(ms, rows, cols)[p] == SoilLine(sx[p], sy[p], sz[p]);
  }

  /// `rows*cols + 1` lines; line `1 + p`, `p = c + r*cols`, is the triple
  /// of column `c`, row `r` from the bottom.
  lemma SoilToSaLine(ms: seq<seq<real>>, rows: nat, cols: nat, nsl: int, r: nat, c: nat, p: nat)
    requires IsGrid(ms, rows, cols) && r < rows && c < cols && p == c + r * cols
    ensures |SoilFile(ms, rows, cols, nsl)| == rows * cols + 1
    ensures p < rows * cols
    ensures SoilFile(ms, rows, cols, nsl)[1 + p] == SoilLine(c + 1, r + 1, ms[rows - 1 - r][c])
  {
    SoilLinesAt(ms, rows, cols, r, c, p);
    AfterHead(SoilHeader(rows, cols, nsl), SoilLines(ms, rows, cols), p);
  }

  lemma AfterHead<T>(h: T, xs: seq<T>, p: nat)
    requires p < |xs|
    ensures |[h] + xs| == |xs| + 1 && ([h] + xs)[1 + p] == xs[p]
  {
  }

  /// The number of CLM vegetation classes, the width of `vegmat` (line 91).
  const Veg: nat := 18

  /// `nlcd2clmdat`, lines 123-145: the CLM column of an NLCD class code,
  /// none for a code the table does not list.
  function NlcdColumn(code: real): (c: Option<nat>)
    ensures c.Some? ==> c.value < Veg
  {
    if code == 42.0 then Some(0)
    else if code == 41.0 then Some(2)
    else if code == 43.0 then Some(4)
    else if code == 52.0 then Some(6)
    else if code == 12.0 then Some(14)
    else if code == 90.0 then Some(10)
    else if code == 82.0 then Some(11)
    else if code == 22.0 then Some(12)
    else if code == 71.0 then Some(9)
    else if code == 31.0 then Some(15)
    else if code == 11.0 then Some(16)
    else None
  }

  /// No two NLCD classes share a column, so the column tells the class.
  lemma NlcdColumnInjective(a: real, b: real)
    requires NlcdColumn(a).Some? && NlcdColumn(a) == NlcdColumn(b)
    ensures a == b
  {
  }

  /// The NLCD classes the table lists.
  lemma NlcdListed(code: real)
    ensures NlcdColumn(code).Some? <==>
      code in {11.0, 12.0, 22.0, 31.0, 41.0, 42.0, 43.0, 52.0, 71.0, 82.0, 90.0}
  {
  }

  /// `modis2clmdat`, lines 186-220: the CLM column of a MODIS (IGBP) class
  /// code, none for a code outside 0..16.
  function ModisColumn(code: real): (c: Option<nat>)
    ensures c.Some? ==> c.value < Veg
  {
    if code == 0.0 then Some(16)
    else if code == 1.0 then Some(0)
    else if code == 2.0 then Some(1)
    else if code == 3.0 then Some(2)
    else if code == 4.0 then Some(3)
    else if code == 5.0 then Some(4)
    else if code == 6.0 then Some(5)
    else if code == 7.0 then Some(6)
    else if code == 8.0 then Some(7)
    else if code == 9.0 then Some(8)
    else if code == 10.0 then Some(9)
    else if code == 11.0 then Some(10)
    else if code == 12.0 then Some(11)
    else if code == 13.0 then Some(12)
    else if code == 14.0 then Some(13)
    else if code == 15.0 then Some(14)
    else if code == 16.0 then Some(15)
    else None
  }

  /// The MODIS class of a column: the IGBP classes 1..16 sit one column to
  /// the left, class 0 in column 16.
  function ModisCode(col: nat): (code: nat)
    requires col < 17
  {
    if col == 16 then 0 else col + 1
  }

  /// The MODIS table is the bijection `ModisCode` inverts.
  lemma ModisColumnCode(code: nat)
    requires code <= 16
    ensures ModisColumn(code as real).Some?
    ensures ModisColumn(code as real).value < 17
    ensures ModisCode(ModisColumn(code as real).value) == code
  {
  }

  lemma ModisCodeColumn(col: nat)
    requires col < 17
    ensures ModisColumn(ModisCode(col) as real) == Some(col)
  {
  }

  /// The table lists exactly the whole codes 0..16.
  lemma ModisListed(code: real)
    ensures ModisColumn(code).Some? <==> code == code.Floor as real && 0.0 <= code <= 16.0
  {
  }

  /// The two land-cover sources `asciiLCD2clmdat` accepts.
  datatype Dataset = Nlcd | Modis

  function ClassColumn(ds: Dataset, code: real): (c: Option<nat>)
    ensures c.Some? ==> c.value < Veg
  {
    match ds
    case Nlcd => NlcdColumn(code)
    case Modis => ModisColumn(code)
  }

  /// The value `lcd_val[i]` ends with: the table's column for the code, or
  /// the value it held when the table does not list the code.
  function Remapped(ds: Dataset, code: real, prev: int): int {
    match ClassColumn(ds, code)
    case Some(c) => c
    case None => prev
  }

  /// Lines 123-150 (NLCD) and 186-225 (MODIS): each cell's column in
  /// `lcd_val`, and a 1.0 in that column of the cell's `vegmat` row.
  method RemapCover(ds: Dataset, codes: seq<real>, lcdVal: array<int>, vegmat: array2<real>)
    requires lcdVal.Length == |codes| == vegmat.Length0 && vegmat.Length1 == Veg
    requires forall i :: 0 <= i < lcdVal.Length ==> 0 <= lcdVal[i] < Veg
    modifies lcdVal, vegmat
    ensures forall i :: 0 <= i < lcdVal.Length ==>
      lcdVal[i] == Remapped(ds, codes[i], old(lcdVal[i])) && 0 <= lcdVal[i] < Veg
    ensures forall i, j :: 0 <= i < vegmat.Length0 && 0 <= j < Veg ==>
      vegmat[i, j] == if j == lcdVal[i] then 1.0 else old(vegmat[i, j])
  {
    for i := 0 to |codes|
      invariant forall i' :: 0 <= i' < i ==>
        lcdVal[i'] == Remapped(ds, codes[i'], old(lcdVal[i'])) && 0 <= lcdVal[i'] < Veg
      invariant forall i' :: i <= i' < lcdVal.Length ==> lcdVal[i'] == old(lcdVal[i'])
      invariant forall i', j :: 0 <= i' < i && 0 <= j < Veg ==>
        vegmat[i', j] == if j == lcdVal[i'] then 1.0 else old(vegmat[i', j])
      invariant forall i', j :: i <= i' < vegmat.Length0 && 0 <= j < Veg ==> vegmat[i', j] == old(vegmat[i', j])
    {
      var col := ClassColumn(ds, codes[i]);
      if col.Some? {
        lcdVal[i] := col.value;
      }
      vegmat[i, lcdVal[i]] := 1.0;
    }
  }

  /// The cover column of a cell: `lcd_val` starts at zero (line 90), so a
  /// code the table does not list lands in column 0.
  function CoverColumn(ds: Dataset, code: real): (c: nat)
    ensures c < Veg
    ensures ClassColumn(ds, code).None? ==> c == 0
  {
    match ClassColumn(ds, code)
    case Some(c) => c
    case None => 0
  }

  /// A `vegmat` row that gives the whole cell to one class.
  function OneHot(col: nat): (row: seq<real>)
    requires col < Veg
    ensures |row| == Veg
  {
    seq(Veg, j requires 0 <= j < Veg => if j == col then 1.0 else 0.0)
  }

  function Sum(xs: seq<real>): real {
    if xs == [] then 0.0 else Sum(xs[..|xs| - 1]) + xs[|xs| - 1]
  }

  /// The first `n` entries of a one-hot row add up to 1 once they include
  /// its column, to 0 before.
  lemma {:induction false} OneHotPrefixSum(col: nat, n: nat)
    requires col < Veg && n <= Veg
    ensures Sum(OneHot(col)[..n]) == if col < n then 1.0 else 0.0
  {
    if n > 0 {
      assert OneHot(col)[..n][..n - 1] == OneHot(col)[..n - 1];
      OneHotPrefixSum(col, n - 1);
    }
  }

  /// Each cell is covered once: its row holds a single 1.0 and adds up to 1.
  lemma OneHotCover(col: nat)
    requires col < Veg
    ensures Sum(OneHot(col)) == 1.0
    ensures OneHot(col)[col] == 1.0
    ensures forall j :: 0 <= j < Veg && j != col ==> OneHot(col)[j] == 0.0
  {
    OneHotPrefixSum(col, Veg);
    assert OneHot(col)[..Veg] == OneHot(col);
  }

  /// Lines 154-158: the constants every record carries.
  const Lat: real := 43.72
  const Lon: real := -116.11
  const Sand: real := 0.16
  const Clay: real := 0.26
  const Color: int := 2

  /// One line of `drv_vegm.alluv.dat` (lines 161, 169-176): the cell's
  /// x and y, the constants, and its 18 cover fractions.
  datatype CellRecord = CellRecord(x: nat, y: nat, lat: real, lon: real, sand: real, clay: real, color: int, cover: seq<real>)

  function CellRecords(ds: Dataset, mlc: seq<seq<real>>, rows: nat, cols: nat): (recs: seq<CellRecord>)
    requires IsGrid(mlc, rows, cols)
    ensures |recs| == rows * cols
  {
    var sx, sy, sz := ColumnNumbers(rows, cols), RowNumbers(rows, cols), BottomUp(mlc, rows, cols);
    seq(rows * cols, p requires 0 <= p < rows * cols =>
      CellRecord(sx[p], sy[p], Lat, Lon, Sand, Clay, Color, OneHot(CoverColumn(ds, sz[p]))))
  }

  /// The record of column `c`, row `r` from the bottom: numbered
  /// `(c+1, r+1)`, its cover the one class of `mlc[rows-1-r][c]`.
  lemma CellRecordAt(ds: Dataset, mlc: seq<seq<real>>, rows: nat, cols: nat, r: nat, c: nat)
    requires IsGrid(mlc, rows, cols) && r < rows && c < cols
    ensures c + r * cols < rows * cols
    ensures var rec := CellRecords(ds, mlc, rows, cols)[c + r * cols];
      rec.x == c + 1 && rec.y == r + 1 &&
      rec.cover == OneHot(CoverColumn(ds, mlc[rows - 1 - r][c])) &&
      |rec.cover| == Veg && Sum(rec.cover) == 1.0
  {
    NumbersAt(rows, cols, r, c);
    BottomUpAt(mlc, rows, cols, r, c);
    OneHotCover(CoverColumn(ds, mlc[rows - 1 - r][c]));
  }

  /// Row `i` of `vegmat`: the cover fractions of cell `i`.
  function VegRow(vegmat: array2<real>, i: nat): (row: seq<real>)
    reads vegmat
    requires i < vegmat.Length0 && vegmat.Length1 == Veg
    ensures |row| == Veg && forall j :: 0 <= j < Veg ==> row[j] == vegmat[i, j]
  {
    seq(Veg, j requires 0 <= j < Veg reads vegmat => vegmat[i, j])
  }

  /// Lines 160-176: `out = np.c_[Sxc, Syc, lat, lon, sand, clay, color,
  /// vegmat]`, one record per cell in order.
  method EmitRecords(sxc: seq<nat>, syc: seq<nat>, vegmat: array2<real>) returns (recs: seq<CellRecord>)
    requires |sxc| == |syc| == vegmat.Length0 && vegmat.Length1 == Veg
    ensures |recs| == |sxc|
    ensures forall i :: 0 <= i < |sxc| ==> recs[i] == CellRecord(sxc[i], syc[i], Lat, Lon, Sand, Clay, Color, VegRow(vegmat, i))
  {
    recs := [];
    for i := 0 to |sxc|
      invariant |recs| == i
      invariant forall i' :: 0 <= i' < i ==> recs[i'] == CellRecord(sxc[i'], syc[i'], Lat, Lon, Sand, Clay, Color, VegRow(vegmat, i'))
    {
      recs := recs + [CellRecord(sxc[i], syc[i], Lat, Lon, Sand, Clay, Color, VegRow(vegmat, i))];
    }
  }

  /// Why `asciiLCD2clmdat` writes no file: the shape lookup of lines
  /// 81-83 fails, or the dataset name is neither `NLCD` nor `MODIS`.
  datatype LandCoverError = MapNotTwoD | UnknownDataset

  /// `asciiLCD2clmdat` (lines 80-112): the records of every cell for
  /// `NLCD` or `MODIS`, nothing for another dataset name.
  method LandCoverToClm(dataset: string, mlc: seq<seq<real>>, rows: nat, cols: nat)
    returns (r: Result<seq<CellRecord>, LandCoverError>)
    requires IsGrid(mlc, rows, cols)
    ensures r == Err(MapNotTwoD) <==> !TwoD(rows, cols)
    ensures r == Err(UnknownDataset) <==> TwoD(rows, cols) && dataset != "NLCD" && dataset != "MODIS"
    ensures TwoD(rows, cols) && dataset == "NLCD" ==> r == Ok(CellRecords(Nlcd, mlc, rows, cols))
    ensures TwoD(rows, cols) && dataset == "MODIS" ==> r == Ok(CellRecords(Modis, mlc, rows, cols))
  {
    if !TwoD(rows, cols) {
      return Err(MapNotTwoD);
    }
    var n := rows * cols;
    var lcdVal := new int[n](i => 0);
    var vegmat := new real[n, Veg]((i, j) => 0.0);
    var sxc, syc, szc := ColumnNumbers(rows, cols), RowNumbers(rows, cols), BottomUp(mlc, rows, cols);
    var ds;
    if dataset == "NLCD" {
      ds := Nlcd;
    } else if dataset == "MODIS" {
      ds := Modis;
    } else {
      return Err(UnknownDataset);
    }
    RemapCover(ds, szc, lcdVal, vegmat);
    var recs := EmitRecords(sxc, syc, vegmat);
    ghost var spec := CellRecords(ds, mlc, rows, cols);
    forall i | 0 <= i < n
      ensures recs[i] == spec[i]
    {
      assert VegRow(vegmat, i) == OneHot(CoverColumn(ds, szc[i]));
    }
    assert recs == spec;
    return Ok(recs);
  }

  /// Why `soilsa2indisa` stops: `np.zeros` refuses a negative size, a line
  /// it indexes is missing, a line has fewer than three fields, or `float`
  /// rejects the third one.
  datatype SoilError = NegativeSize | MissingLine | MissingField | NotANumber

  /// Line 312 on one line: `float(line.split()[2])`, with Python's `float`
  /// given as `toFloat`.
  function FieldValue(line: string, toFloat: string -> Option<real>): Result<real, SoilError> {
    var ts := Tokens(line);
    if |ts| < 3 then Err(MissingField)
    else match toFloat(ts[2])
      case None => Err(NotANumber)
      case Some(v) => Ok(v)
  }

  function LineValue(txt: seq<string>, n: nat, toFloat: string -> Option<real>): Result<real, SoilError> {
    if n < |txt| then FieldValue(txt[n], toFloat) else Err(MissingLine)
  }

  /// The values of lines `1..count` in the order they are read; the first
  /// failure ends the reading.
  function ReadField(txt: seq<string>, count: nat, toFloat: string -> Option<real>): (r: Result<seq<real>, SoilError>)
    ensures r.Ok? ==> |r.value| == count
  {
    if count == 0 then Ok([])
    else match ReadField(txt, count - 1, toFloat)
      case Err(e) => Err(e)
      case Ok(vs) =>
        match LineValue(txt, count, toFloat)
        case Err(e) => Err(e)
        case Ok(v) => Ok(vs + [v])
  }

  /// Reading succeeds exactly when every line read does, and value `p`
  /// comes from line `1 + p`.
  lemma {:induction false} ReadFieldAt(txt: seq<string>, count: nat, toFloat: string -> Option<real>)
    ensures ReadField(txt, count, toFloat).Ok? <==> forall n :: 1 <= n <= count ==> LineValue(txt, n, toFloat).Ok?
    ensures ReadField(txt, count, toFloat).Ok? ==> forall p :: 0 <= p < count ==>
      LineValue(txt, p + 1, toFloat) == Ok(ReadField(txt, count, toFloat).value[p])
  {
    if count > 0 {
      ReadFieldAt(txt, count - 1, toFloat);
    }
  }

  /// Reading `count` lines gives `vs` when line `1 + p` reads as `vs[p]`
  /// for every `p`.
  lemma {:induction false} ReadFieldAll(txt: seq<string>, count: nat, toFloat: string -> Option<real>, vs: seq<real>)
    requires |vs| == count
    requires forall p :: 0 <= p < count ==> LineValue(txt, p + 1, toFloat) == Ok(vs[p])
    ensures ReadField(txt, count, toFloat) == Ok(vs)
  {
    if count > 0 {
      ReadFieldAll(txt, count - 1, toFloat, vs[..count - 1]);
      assert vs == vs[..count - 1] + [vs[count - 1]];
    }
  }

  /// A failure is final: reading further lines reports the same one.
  lemma {:induction false} ReadFieldSticky(txt: seq<string>, a: nat, b: nat, toFloat: string -> Option<real>)
    requires a <= b && ReadField(txt, a, toFloat).Err?
    ensures ReadField(txt, b, toFloat) == ReadField(txt, a, toFloat)
  {
    if a < b {
      ReadFieldSticky(txt, a, b - 1, toFloat);
    }
  }

  /// Lines 316-322 and 328-331 as one list: `nz` layers of `nx*ny` values,
  /// layer `k` all zero below the top `ns` layers, else the soil classes.
  function Stack(vs: seq<real>, nx: nat, ny: nat, nz: nat, ns: int): (out: seq<real>)
    requires |vs| == nx * ny
    ensures |out| == nz * (nx * ny)
  {
    seq(nz * (nx * ny), t requires 0 <= t < nz * (nx * ny) =>
      RowMajorSplit(t, nz, nx * ny);
      if t / (nx * ny) < nz - ns then 0.0 else vs[t % (nx * ny)])
  }

  /// Output position `k*nx*ny + j*nx + i` holds `indi[i][j][k]`: zero in
  /// the `nz - ns` bottom layers, the soil class of column `i`, row `j`
  /// above them.
  lemma StackAt(vs: seq<real>, nx: nat, ny: nat, nz: nat, ns: int, k: nat, j: nat, i: nat)
    requires |vs| == nx * ny && k < nz && j < ny && i < nx
    ensures j * nx + i < nx * ny
    ensures k * (nx * ny) + j * nx + i < nz * (nx * ny)
    ensures Stack(vs, nx, ny, nz, ns)[k * (nx * ny) + j * nx + i] ==
      if k < nz - ns then 0.0 else vs[j * nx + i]
  {
    RowMajor(j, i, ny, nx);
    assert j * nx + i < nx * ny;
    RowMajor(k, j * nx + i, nz, nx * ny);
  }

  /// The whole of `soilsa2indisa` (lines 302-331) on the lines of the
  /// `.soil.sa` file: the indicator file (its size line and its values in
  /// output order), or the reason it stops.
  function Indicator(txt: seq<string>, nx: int, ny: int, nz: int, ns: int, toFloat: string -> Option<real>): Result<SaFile<real>, SoilError> {
    if nx < 0 || ny < 0 || nz < 0 then Err(NegativeSize)
    else match ReadField(txt, nx * ny, toFloat)
      case Err(e) => Err(e)
      case Ok(vs) => Ok(SaFile(IndicatorHeader(nx, ny, nz), Stack(vs, nx, ny, nz, ns)))
  }

  /// Line 327: `print >> fout, nx, ny, nz` separates the sizes by spaces.
  function IndicatorHeader(nx: nat, ny: nat, nz: nat): string {
    Dec(nx) + " " + Dec(ny) + " " + Dec(nz)
  }

  /// One more line: reading it fails exactly when that line does.
  lemma ReadFieldStep(txt: seq<string>, line: nat, toFloat: string -> Option<real>)
    requires line >= 1 && ReadField(txt, line - 1, toFloat).Ok?
    ensures ReadField(txt, line, toFloat).Ok? <==> LineValue(txt, line, toFloat).Ok?
    ensures LineValue(txt, line, toFloat).Err? ==> ReadField(txt, line, toFloat) == Err(LineValue(txt, line, toFloat).error)
  {
  }

  /// Line 311-313 for one row `j`: `soil[i, j]` from line `line0 + i`.
  method ReadSoilRow(txt: seq<string>, toFloat: string -> Option<real>, soil: array2<real>, j: nat, line0: nat)
    returns (r: Option<SoilError>)
    requires j < soil.Length1 && line0 >= 1
    requires ReadField(txt, line0 - 1, toFloat).Ok?
    modifies soil
    ensures var nx := soil.Length0;
      (r.None? <==> ReadField(txt, line0 - 1 + nx, toFloat).Ok?) &&
      (r.Some? ==> exists n :: line0 <= n < line0 + nx && ReadField(txt, n, toFloat) == Err(r.value)) &&
      (r.None? ==> forall i :: 0 <= i < nx ==> LineValue(txt, line0 + i, toFloat) == Ok(soil[i, j]))
    ensures forall i, j' :: 0 <= i < soil.Length0 && 0 <= j' < soil.Length1 && j' != j ==> soil[i, j'] == old(soil[i, j'])
  {
    var line := line0;
    for i := 0 to soil.Length0
      invariant line == line0 + i
      invariant ReadField(txt, line - 1, toFloat).Ok?
      invariant forall i' :: 0 <= i' < i ==> LineValue(txt, line0 + i', toFloat) == Ok(soil[i', j])
      invariant forall i', j' :: 0 <= i' < soil.Length0 && 0 <= j' < soil.Length1 && j' != j ==> soil[i', j'] == old(soil[i', j'])
    {
      var v := LineValue(txt, line, toFloat);
      ReadFieldStep(txt, line, toFloat);
      if v.Err? {
        ReadFieldSticky(txt, line, line0 - 1 + soil.Length0, toFloat);
        return Some(v.error);
      }
      soil[i, j] := v.value;
      line := line + 1;
    }
    return None;
  }

  /// Lines 308-313: `soil[i, j]` from line `1 + j*nx + i`, with `line`
  /// counting the lines read.
  method ReadSoil(txt: seq<string>, toFloat: string -> Option<real>, soil: array2<real>) returns (r: Option<SoilError>)
    modifies soil
    ensures var nx, ny := soil.Length0, soil.Length1;
      (r.None? <==> ReadField(txt, nx * ny, toFloat).Ok?) &&
      (r.Some? ==> ReadField(txt, nx * ny, toFloat) == Err(r.value)) &&
      (r.None? ==> forall i, j :: 0 <= i < nx && 0 <= j < ny ==>
        LineValue(txt, 1 + j * nx + i, toFloat) == Ok(soil[i, j]))
  {
    var nx, ny := soil.Length0, soil.Length1;
    var line := 1;
    for j := 0 to ny
      invariant line == 1 + j * nx
      invariant j * nx <= nx * ny
      invariant ReadField(txt, line - 1, toFloat).Ok?
      invariant forall i', j' :: 0 <= i' < nx && 0 <= j' < j ==>
        LineValue(txt, 1 + j' * nx + i', toFloat) == Ok(soil[i', j'])
    {
      MulAtLeastLe(j + 1, ny, nx);
      assert j * nx + nx == (j + 1) * nx;
      var e := ReadSoilRow(txt, toFloat, soil, j, line);
      if e.Some? {
        ghost var n :| line <= n < line + nx && ReadField(txt, n, toFloat) == Err(e.value);
        ReadFieldSticky(txt, n, nx * ny, toFloat);
        return e;
      }
      line := line + nx;
    }
    return None;
  }

  /// Lines 316-322: `indi[i, j, k]` is zero in the bottom `nz - ns`
  /// layers and the soil class of `[i, j]` in every layer above.
  method FillLayers(soil: array2<real>, indi: array3<real>, ns: int)
    requires soil.Length0 == indi.Length0 && soil.Length1 == indi.Length1
    modifies indi
    ensures forall i, j, k :: 0 <= i < indi.Length0 && 0 <= j < indi.Length1 && 0 <= k < indi.Length2 ==>
      indi[i, j, k] == if k < indi.Length2 - ns then 0.0 else soil[i, j]
  {
    var nx, ny, nz := indi.Length0, indi.Length1, indi.Length2;
    for k := 0 to nz
      invariant forall i, j, k' :: 0 <= i < nx && 0 <= j < ny && 0 <= k' < k ==>
        indi[i, j, k'] == if k' < nz - ns then 0.0 else soil[i, j]
    {
      for j := 0 to ny
        invariant forall i, j', k' :: 0 <= i < nx && 0 <= j' < ny && 0 <= k' < k ==>
          indi[i, j', k'] == if k' < nz - ns then 0.0 else soil[i, j']
        invariant forall i, j' :: 0 <= i < nx && 0 <= j' < j ==>
          indi[i, j', k] == if k < nz - ns then 0.0 else soil[i, j']
      {
        for i := 0 to nx
          invariant forall i', j', k' :: 0 <= i' < nx && 0 <= j' < ny && 0 <= k' < k ==>
            indi[i', j', k'] == if k' < nz - ns then 0.0 else soil[i', j']
          invariant forall i', j' :: 0 <= i' < nx && 0 <= j' < j ==>
            indi[i', j', k] == if k < nz - ns then 0.0 else soil[i', j']
          invariant forall i' :: 0 <= i' < i ==>
            indi[i', j, k] == if k < nz - ns then 0.0 else soil[i', j]
        {
          if k < nz - ns {
            indi[i, j, k] := 0.0;
          } else {
            indi[i, j, k] := soil[i, j];
          }
        }
      }
    }
  }

  /// Row `j` of layer `k` as lines 330-331 emit it, `i` fastest.
  ghost function IndiRow(indi: array3<real>, k: nat, j: nat): (row: seq<real>)
    reads indi
    requires k < indi.Length2 && j < indi.Length1
    ensures |row| == indi.Length0
  {
    seq(indi.Length0, i requires 0 <= i < indi.Length0 reads indi => indi[i, j, k])
  }

  /// Rows `0 .. jn` of layer `k`.
  ghost function IndiRows(indi: array3<real>, k: nat, jn: nat): (out: seq<real>)
    reads indi
    requires k < indi.Length2 && jn <= indi.Length1
    ensures |out| == jn * indi.Length0
  {
    if jn == 0 then []
    else
      MulSucc(jn - 1, indi.Length0);
      IndiRows(indi, k, jn - 1) + IndiRow(indi, k, jn - 1)
  }

  /// Layers `0 .. kn`, each one whole.
  ghost function IndiLayers(indi: array3<real>, kn: nat): (out: seq<real>)
    reads indi
    requires kn <= indi.Length2
    ensures |out| == kn * (indi.Length0 * indi.Length1)
  {
    if kn == 0 then []
    else
      MulSucc(kn - 1, indi.Length0 * indi.Length1);
      assert indi.Length1 * indi.Length0 == indi.Length0 * indi.Length1;
      IndiLayers(indi, kn - 1) + IndiRows(indi, kn - 1, indi.Length1)
  }

  lemma {:induction false} IndiRowsAt(indi: array3<real>, k: nat, jn: nat, t: nat)
    requires k < indi.Length2 && jn <= indi.Length1
    requires t < jn * indi.Length0
    ensures indi.Length0 > 0 && t / indi.Length0 < jn
    ensures IndiRows(indi, k, jn)[t] == indi[t % indi.Length0, t / indi.Length0, k]
  {
    var nx := indi.Length0;
    MulSucc(jn - 1, nx);
    if t < (jn - 1) * nx {
      IndiRowsAt(indi, k, jn - 1, t);
    } else {
      DivModUnique(t, nx, jn - 1, t - (jn - 1) * nx);
    }
  }

  /// Value `u` of layer `k` sits at position `k * nx * ny + u` of the
  /// whole output, whose decomposition gives back `k`.
  lemma LayerOffset(indi: array3<real>, k: nat, u: nat)
    requires k < indi.Length2
    requires u < indi.Length1 * indi.Length0
    ensures var nx, ny, t := indi.Length0, indi.Length1, k * (indi.Length0 * indi.Length1) + u;
      nx > 0 && ny > 0 && t / (nx * ny) == k &&
      IndiRows(indi, k, ny)[u] == indi[t % nx, (t / nx) % ny, t / (nx * ny)]
  {
    var nx, ny := indi.Length0, indi.Length1;
    IndiRowsAt(indi, k, ny, u);
    RowMajorSplit(u, ny, nx);
    var j, i := u / nx, u % nx;
    Compose3(k, j, i, nx, ny, k + 1);
    assert k * (nx * ny) + j * nx + i == k * (nx * ny) + u;
  }

  /// Value `t` of the emitted layers is `indi[i, j, k]` for the `i`, `j`,
  /// `k` with `t == k * nx * ny + j * nx + i`.
  lemma {:induction false} IndiLayersAt(indi: array3<real>, kn: nat, t: nat)
    requires kn <= indi.Length2
    requires t < kn * (indi.Length0 * indi.Length1)
    ensures var nx, ny := indi.Length0, indi.Length1;
      nx > 0 && ny > 0 && t / (nx * ny) < kn &&
      IndiLayers(indi, kn)[t] == indi[t % nx, (t / nx) % ny, t / (nx * ny)]
  {
    var p := indi.Length0 * indi.Length1;
    MulSucc(kn - 1, p);
    if t < (kn - 1) * p {
      IndiLayersAt(indi, kn - 1, t);
    } else {
      assert indi.Length1 * indi.Length0 == p;
      LayerOffset(indi, kn - 1, t - (kn - 1) * p);
    }
  }

  /// Lines 330-331 for row `j` of layer `k`.
  method EmitRow(indi: array3<real>, k: nat, j: nat, out0: seq<real>) returns (out: seq<real>)
    requires k < indi.Length2 && j < indi.Length1
    ensures out == out0 + IndiRow(indi, k, j)
  {
    out := out0;
    for i := 0 to indi.Length0
      invariant out == out0 + IndiRow(indi, k, j)[..i]
    {
      assert IndiRow(indi, k, j)[..i + 1] == IndiRow(indi, k, j)[..i] + [indi[i, j, k]];
      out := out + [indi[i, j, k]];
    }
  }

  /// Lines 329-331 for layer `k`.
  method EmitLayer(indi: array3<real>, k: nat, out0: seq<real>) returns (out: seq<real>)
    requires k < indi.Length2
    ensures out == out0 + IndiRows(indi, k, indi.Length1)
  {
    out := out0;
    for j := 0 to indi.Length1
      invariant out == out0 + IndiRows(indi, k, j)
    {
      out := EmitRow(indi, k, j, out);
    }
  }

  /// Lines 328-331: every value of `indi`, `k` outermost, `i` fastest.
  method EmitLayers(indi: array3<real>) returns (out: seq<real>)
    ensures out == IndiLayers(indi, indi.Length2)
  {
    out := [];
    for k := 0 to indi.Length2
      invariant out == IndiLayers(indi, k)
    {
      out := EmitLayer(indi, k, out);
    }
  }

  /// Position `t` of the emitted layers and of `Stack` both belong to
  /// cell `(k, j, i)` of the volume.
  lemma CellOf(indi: array3<real>, vs: seq<real>, ns: int, t: nat) returns (k: nat, j: nat, i: nat)
    requires |vs| == indi.Length0 * indi.Length1
    requires t < indi.Length2 * (indi.Length0 * indi.Length1)
    ensures k < indi.Length2 && j < indi.Length1 && i < indi.Length0
    ensures j * indi.Length0 + i < |vs|
    ensures IndiLayers(indi, indi.Length2)[t] == indi[i, j, k]
    ensures Stack(vs, indi.Length0, indi.Length1, indi.Length2, ns)[t] ==
      if k < indi.Length2 - ns then 0.0 else vs[j * indi.Length0 + i]
  {
    var nx, ny, nz := indi.Length0, indi.Length1, indi.Length2;
    k, j, i := Split3(t, nx, ny, nz);
    IndiLayersAt(indi, nz, t);
    StackAt(vs, nx, ny, nz, ns, k, j, i);
  }

  /// Reading, layering and emitting together give `Stack` of the values
  /// read.
  lemma Stacked(txt: seq<string>, toFloat: string -> Option<real>, soil: array2<real>, indi: array3<real>, ns: int)
    requires soil.Length0 == indi.Length0 && soil.Length1 == indi.Length1
    requires ReadField(txt, soil.Length0 * soil.Length1, toFloat).Ok?
    requires forall i, j :: 0 <= i < soil.Length0 && 0 <= j < soil.Length1 ==>
      LineValue(txt, 1 + j * soil.Length0 + i, toFloat) == Ok(soil[i, j])
    requires forall i, j, k :: 0 <= i < indi.Length0 && 0 <= j < indi.Length1 && 0 <= k < indi.Length2 ==>
      indi[i, j, k] == if k < indi.Length2 - ns then 0.0 else soil[i, j]
    ensures IndiLayers(indi, indi.Length2) ==
      Stack(ReadField(txt, soil.Length0 * soil.Length1, toFloat).value, indi.Length0, indi.Length1, indi.Length2, ns)
  {
    var nx, ny, nz := indi.Length0, indi.Length1, indi.Length2;
    var vs := ReadField(txt, nx * ny, toFloat).value;
    var out := IndiLayers(indi, nz);
    ReadFieldAt(txt, nx * ny, toFloat);
    forall t | 0 <= t < |out|
      ensures out[t] == Stack(vs, nx, ny, nz, ns)[t]
    {
      var k, j, i := CellOf(indi, vs, ns, t);
      assert LineValue(txt, 1 + j * nx + i, toFloat) == Ok(soil[i, j]);
      assert LineValue(txt, j * nx + i + 1, toFloat) == Ok(vs[j * nx + i]);
    }
  }

  /// `soilsa2indisa` (lines 302-331): the arrays allocated, the soil
  /// classes read, the layers filled, and the values emitted in order.
  method SoilToIndicator(txt: seq<string>, nx: int, ny: int, nz: int, ns: int, toFloat: string -> Option<real>)
    returns (r: Result<SaFile<real>, SoilError>)
    ensures r == Indicator(txt, nx, ny, nz, ns, toFloat)
  {
    if nx < 0 || ny < 0 || nz < 0 {
      return Err(NegativeSize);
    }
    var soil := new real[nx, ny]((i, j) => 0.0);
    var indi := new real[nx, ny, nz]((i, j, k) => 0.0);
    var e := ReadSoil(txt, toFloat, soil);
    if e.Some? {
      return Err(e.value);
    }
    FillLayers(soil, indi, ns);
    var out := EmitLayers(indi);
    Stacked(txt, toFloat, soil, indi, ns);
    return Ok(SaFile(IndicatorHeader(nx, ny, nz), out));
  }

  /// A line `asciiSoil2sa` writes splits into its three numbers.
  lemma SoilLineTokens(x: nat, y: nat, v: real)
    ensures Tokens(SoilLine(x, y, v)) == [Dec(x), Dec(y), DecInt(Trunc(v))]
  {
    DecNoSpace(x);
    DecNoSpace(y);
    DecIntNoSpace(Trunc(v));
    TokensSeparated(Dec(x), Dec(y), DecInt(Trunc(v)), "\t", "\n");
  }

  /// Line `1 + p`, `p = c + r*cols`, of the `.sa` file reads back as the class of
  /// column `c`, row `r` from the bottom, truncated as `%d` wrote it,
  /// provided `float()` reads back what `%d` prints.
  lemma SoilLineValue(ms: seq<seq<real>>, rows: nat, cols: nat, nsl: int, toFloat: string -> Option<real>,
      r: nat, c: nat, p: nat)
    requires IsGrid(ms, rows, cols) && r < rows && c < cols && p == c + r * cols
    requires forall v: int :: toFloat(DecInt(v)) == Some(v as real)
    ensures LineValue(SoilFile(ms, rows, cols, nsl), 1 + p, toFloat) == Ok(Trunc(ms[rows - 1 - r][c]) as real)
  {
    SoilToSaLine(ms, rows, cols, nsl, r, c, p);
    SoilLineTokens(c + 1, r + 1, ms[rows - 1 - r][c]);
  }

  /// The soil classes as `soilsa2indisa` reads them back, `c` fastest.
  function SoilClasses(ms: seq<seq<real>>, rows: nat, cols: nat): (vs: seq<real>)
    requires IsGrid(ms, rows, cols)
    ensures |vs| == rows * cols
  {
    seq(rows * cols, p requires 0 <= p < rows * cols =>
      RowMajorSplit(p, rows, cols);
      Trunc(ms[rows - 1 - p / cols][p % cols]) as real)
  }

  lemma SoilClassesAt(ms: seq<seq<real>>, rows: nat, cols: nat, p: nat) returns (r: nat, c: nat)
    requires IsGrid(ms, rows, cols) && p < rows * cols
    ensures r < rows && c < cols && p == c + r * cols
    ensures SoilClasses(ms, rows, cols)[p] == Trunc(ms[rows - 1 - r][c]) as real
  {
    RowMajorSplit(p, rows, cols);
    r, c := p / cols, p % cols;
  }

  lemma SoilClassAt(ms: seq<seq<real>>, rows: nat, cols: nat, nsl: int, toFloat: string -> Option<real>, p: nat)
    requires IsGrid(ms, rows, cols) && p < rows * cols
    requires forall v: int :: toFloat(DecInt(v)) == Some(v as real)
    ensures LineValue(SoilFile(ms, rows, cols, nsl), p + 1, toFloat) == Ok(SoilClasses(ms, rows, cols)[p])
  {
    var r, c := SoilClassesAt(ms, rows, cols, p);
    SoilLineValue(ms, rows, cols, nsl, toFloat, r, c, p);
  }

  /// Preprocessing round trip: the indicator file built from the soil
  /// file `asciiSoil2sa` writes (`nx = cols`, `ny = rows`) stacks the
  /// truncated classes of the soil grid, bottom row first. The script
  /// writes that file for every map of at least two rows and two columns.
  lemma SoilIndicatorRoundTrip(ms: seq<seq<real>>, rows: nat, cols: nat, nsl: int, nz: nat, ns: int, toFloat: string -> Option<real>)
    requires IsGrid(ms, rows, cols)
    requires forall v: int :: toFloat(DecInt(v)) == Some(v as real)
    ensures cols * rows == rows * cols
    ensures Indicator(SoilFile(ms, rows, cols, nsl), cols, rows, nz, ns, toFloat) ==
      Ok(SaFile(IndicatorHeader(cols, rows, nz), Stack(SoilClasses(ms, rows, cols), cols, rows, nz, ns)))
    ensures SoilToSa(ms, rows, cols, nsl).Some? <==> TwoD(rows, cols)
    ensures SoilToSa(ms, rows, cols, nsl).Some? ==>
      Indicator(SoilToSa(ms, rows, cols, nsl).value, cols, rows, nz, ns, toFloat) ==
      Ok(SaFile(IndicatorHeader(cols, rows, nz), Stack(SoilClasses(ms, rows, cols), cols, rows, nz, ns)))
  {
    var txt, vs := SoilFile(ms, rows, cols, nsl), SoilClasses(ms, rows, cols);
    var count := cols * rows;
    assert count == rows * cols;
    forall p | 0 <= p < count
      ensures LineValue(txt, p + 1, toFloat) == Ok(vs[p])
    {
      SoilClassAt(ms, rows, cols, nsl, toFloat, p);
    }
    ReadFieldAll(txt, count, toFloat, vs);
  }
}

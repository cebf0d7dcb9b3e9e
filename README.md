# ParFlow pre- and post-processing: a verified model

This project models two Python 2 scripts that move data between gridded
ASCII/binary files and the ParFlow/CLM hydrology models.

- `Parflow_Postprocessing/parflow_pfb2vtk.py` converts one time step of a
  ParFlow binary output file (`.pfb`) into a legacy binary VTK file:
  - it reads the 64-byte big-endian header and the `ns` subgrid blocks;
  - it scatters each block's values into a zero-initialised `[ny][nx][nz]`
    volume;
  - it takes layer 10 (snow water equivalent, SWE) and flattens it by
    columns;
  - it flips the DEM upside down and computes the point coordinates;
  - it writes the `STRUCTURED_GRID` file: text header, 24-byte point
    records, the `Elevation` scalars, then the `SWE` scalars.
- `Parflow_Preprocessing/pfclmConvert.py` prepares model inputs:
  - `asciiDEM2sa` turns a DEM grid into a `.sa` value list;
  - `asciiLCD2clmdat`, `nlcd2clmdat` and `modis2clmdat` remap NLCD or MODIS
    land-cover codes to the 18 CLM vegetation classes, as one-hot cover rows;
  - `asciiSoil2sa` writes `(x, y, class)` soil triples;
  - `soilsa2indisa` reads those triples back and stacks them into a 3-D
    soil indicator field.

Modules:

| file | module | what it holds |
|---|---|---|
| `Wrappers.dfy` | `Wrappers` | `Option` and `Result` |
| `Arith.dfy` | `Arith` | row-major index arithmetic lemmas |
| `Bytes.dfy` | `Bytes` | bytes, 8-byte words, big-endian int32, int32 wrap-around, ASCII text as bytes |
| `Text.dfy` | `Text` | `%d` formatting, digit strings, truncation toward zero, `str.split()` |
| `Grids.dfy` | `Grids` | `flipud`, `transpose`, row-major and column-major (Fortran) flattening |
| `Pfb.dfy` | `Pfb` | the `.pfb` format: a functional reference decoder `Parse`/`Paint` and the imperative cursor decoder `Decode` over a `Reader` object and a 3-D array |
| `Vtk.dfy` | `Vtk` | the VTK file as a function `File` and the imperative writer `Write` |
| `Pfb2Vtk.dfy` | `Pfb2Vtk` | one time step of the conversion |
| `PfclmConvert.dfy` | `PfclmConvert` | the preprocessing conversions |

How the model represents the data:

- Every `>f8` value is an opaque 8-byte `Word`, because the scripts only
  copy doubles from input to output.
- Coordinates are `real` numbers. `struct.pack('>d', …)` is a parameter
  `pack: real -> Word`.
- Python's `float()` of a text field is a parameter
  `toFloat: string -> Option<real>`.
- Grids read by `np.genfromtxt`/`np.loadtxt` are given as `seq<seq<…>>`.
  Text files are given as their lines.
- numpy reads a text map of one row or one column as a 1-D array, and the
  scripts' `shape[1]` then raises IndexError. `Grids.TwoD` names the maps
  that get through (at least 2 rows and 2 columns); `DemToSa`, `SoilToSa`,
  `LandCoverToClm` and `Convert` fail on the others. `SoilFile` is the
  soil file's lines, which `SoilToSa` returns for such a map.

`np.reshape(x, n, 1)` passes `1` as numpy's `order` argument. The numpy of
this Python 2 code read that as Fortran order, so the flattened grids list
the first index fastest. All three reshapes are modelled that way. This
matches the order in which `soilsa2indisa` reads the soil file back.

## Model

| member | source | states |
|---|---|---|
| Bytes.Wrap32 | Parflow_Postprocessing/parflow_pfb2vtk.py:47-49 | numpy int32 sums such as `iz+nnz`: the result is an int32, congruent to the exact sum modulo 2^32, and equal to it when no overflow occurs |
| Bytes.DecodeI32 | Parflow_Postprocessing/parflow_pfb2vtk.py:27-29 | `>i4` gives an int32 that is negative exactly when the top bit of the first byte is set |
| Bytes.DecodeEncodeI32 | Parflow_Postprocessing/parflow_pfb2vtk.py:27-29 | decoding the big-endian encoding of an int32 gives it back |
| Bytes.EncodeDecodeI32 | Parflow_Postprocessing/parflow_pfb2vtk.py:27-29 | every 4 bytes are the encoding of the int32 they decode to, so `>i4` is a bijection |
| Bytes.Ascii | Parflow_Postprocessing/parflow_pfb2vtk.py:98-100 | a text line written to the binary file takes one byte per character, each byte the character's code |
| Text.Dec | Parflow_Postprocessing/parflow_pfb2vtk.py:99 | `%d` of a non-negative integer is a non-empty digit string with no leading zero |
| Text.DecRoundTrip | Parflow_Postprocessing/parflow_pfb2vtk.py:99 | the digits `%d` prints read back as the same number |
| Text.Trunc | Parflow_Preprocessing/pfclmConvert.py:282 | `%d` of a float truncates toward zero: the result lies within 1 of the value, on the zero side |
| Text.TokensAreWords | Parflow_Preprocessing/pfclmConvert.py:312 | every field `str.split()` returns is non-empty and holds no separator |
| Grids.FlipAt | Parflow_Postprocessing/parflow_pfb2vtk.py:72 | row `r` of the flipped grid is row `rows-1-r` of the original |
| Grids.FlipFlip | Parflow_Preprocessing/pfclmConvert.py:60 | flipping twice gives the grid back |
| Grids.Transpose | Parflow_Preprocessing/pfclmConvert.py:61 | the transpose of a rows x cols grid is a cols x rows grid |
| Grids.TransposeTranspose | Parflow_Preprocessing/pfclmConvert.py:61 | transposing twice gives the grid back |
| Grids.FortranFlattenAt | Parflow_Postprocessing/parflow_pfb2vtk.py:61-64 | the column-major flattening has `rows*cols` entries, and position `r + rows*c` holds cell `[r][c]` |
| Grids.FortranFlattenIndex | Parflow_Postprocessing/parflow_pfb2vtk.py:61-64 | every position `k` of the flattening holds exactly the cell `[k % rows][k / rows]`, so the flattening is a bijection |
| Grids.RowMajorAt | Parflow_Postprocessing/parflow_pfb2vtk.py:101-103 | in row-major order, position `c + cols*r` holds cell `[r][c]` |
| Pfb.Extent | Parflow_Postprocessing/parflow_pfb2vtk.py:47-49 | the number of iterations of `range(lo, lo+n)` with int32 `lo+n`; without overflow it is `n` when `n > 0` and 0 otherwise |
| Pfb.OffsetInRange | Parflow_Postprocessing/parflow_pfb2vtk.py:47-50 | a cell the subgrid covers is written by one of the block's `nnx*nny*nnz` values |
| Pfb.ScatterPosition | Parflow_Postprocessing/parflow_pfb2vtk.py:47-50 | value `t` of a block lands on cell `[iy + (t/nnx)%nny][ix + t%nnx][iz + t/(nnx*nny)]`, inside the subgrid: z outermost, x innermost |
| Pfb.ScatterInverse | Parflow_Postprocessing/parflow_pfb2vtk.py:47-50 | every covered cell is the landing cell of exactly its own offset, so the scatter is a bijection between the block's values and the covered cells |
| Pfb.ParseHeader | Parflow_Postprocessing/parflow_pfb2vtk.py:23-33 | the header needs 64 bytes, and decoding fails exactly when fewer are present |
| Pfb.ParseBlock | Parflow_Postprocessing/parflow_pfb2vtk.py:37-50 | a decoded block lies inside the volume and holds exactly `Cells` values; the next block starts `36 + 8*Cells` bytes further on, within the file; a descriptor cut short by the end of the file decodes only when the block has no cells, and then the next position is the end of the file; fewer than 24 descriptor bytes always fail |
| Pfb.ParseBlockExtend | Parflow_Postprocessing/parflow_pfb2vtk.py:37-50 | bytes appended after a block do not change the block decoded, nor, for a complete descriptor, where the next block starts |
| Pfb.ParseBlocksExtend | Parflow_Postprocessing/parflow_pfb2vtk.py:36-50 | bytes appended after the last block do not change the blocks decoded |
| Pfb.ParseExtend | Parflow_Postprocessing/parflow_pfb2vtk.py:23-50 | the decoder reads nothing past the last block: a decodable file with any bytes appended decodes to the same header and blocks |
| Pfb.ParseBlocks | Parflow_Postprocessing/parflow_pfb2vtk.py:36-50 | `n` blocks decode to exactly `n` well-sized blocks |
| Pfb.Parse | Parflow_Postprocessing/parflow_pfb2vtk.py:23-50 | a decoded file has non-negative dimensions (so `np.zeros` accepts them) and exactly `max(ns, 0)` well-sized blocks |
| Pfb.PaintUncovered | Parflow_Postprocessing/parflow_pfb2vtk.py:34-50 | a cell that no block covers keeps the initial zero; with `ns = 0` the whole volume is zero |
| Pfb.PaintLastCover | Parflow_Postprocessing/parflow_pfb2vtk.py:47-50 | where blocks overlap, the cell holds the value of the last block covering it |
| Pfb.PaintAppend | Parflow_Postprocessing/parflow_pfb2vtk.py:36-50 | scattering one more block overwrites exactly the cells it covers and leaves every other cell as it was |
| Pfb.Reader.constructor | Parflow_Postprocessing/parflow_pfb2vtk.py:23 | opening the file puts the cursor at byte 0 |
| Pfb.Reader.ReadF8 | Parflow_Postprocessing/parflow_pfb2vtk.py:24 | `fromfile('>f8', count=1)` returns the 8 bytes at the cursor and advances it by 8, or returns nothing when fewer than 8 bytes remain and, as C `fread` does, consumes them, leaving the cursor at the end of the file |
| Pfb.Reader.ReadI32 | Parflow_Postprocessing/parflow_pfb2vtk.py:27 | `fromfile('>i4', count=1)` returns the int32 at the cursor and advances it by 4, or returns nothing when fewer than 4 bytes remain and leaves the cursor at the end of the file |
| Pfb.ReadHeader | Parflow_Postprocessing/parflow_pfb2vtk.py:24-33 | the ten header reads fail exactly when `ParseHeader` does; otherwise they give its header and leave the cursor at byte 64 |
| Pfb.ReadSubgrid | Parflow_Postprocessing/parflow_pfb2vtk.py:37-45 | the nine descriptor reads yield no usable descriptor exactly when fewer than 24 bytes remain (the offset or extent fields are missing); otherwise they give the descriptor at the cursor and advance it by 36 bytes, or to the end of the file when the refinement factors are cut short |
| Pfb.ScatterRow | Parflow_Postprocessing/parflow_pfb2vtk.py:49-50 | the innermost loop fills one x-row of the subgrid from consecutive values and changes no other cell |
| Pfb.ScatterLayer | Parflow_Postprocessing/parflow_pfb2vtk.py:48-50 | the middle loop fills one z-layer of the subgrid and changes no other cell |
| Pfb.ScatterBlock | Parflow_Postprocessing/parflow_pfb2vtk.py:47-50 | the triple loop succeeds exactly when the block's values are all present; it then writes value `Offset` to each covered cell, leaves the other cells alone, and advances the cursor by `8*Cells` |
| Pfb.DecodeBlock | Parflow_Postprocessing/parflow_pfb2vtk.py:37-50 | one loop iteration fails exactly when `ParseBlock` does, with the same error; otherwise the volume becomes the reference volume with that block painted on top |
| Pfb.DecodeBlocks | Parflow_Postprocessing/parflow_pfb2vtk.py:36-50 | the block loop fails exactly when `ParseBlocks` does; otherwise the volume holds, at every cell, the value `Paint` gives for the decoded blocks |
| Pfb.Decode | Parflow_Postprocessing/parflow_pfb2vtk.py:23-50 | the imperative decoder agrees with the reference decoder `Parse`: the same error, or the same header and a `[ny][nx][nz]` volume equal to `Paint` at every cell |
| Pfb2Vtk.CoordinateIncreasing | Parflow_Postprocessing/parflow_pfb2vtk.py:92-95 | coordinates `j` and `i` lie `(j-i)*30` metres apart, so both coordinate lists strictly increase |
| Pfb2Vtk.Coordinates | Parflow_Postprocessing/parflow_pfb2vtk.py:84-95 | `xc[ic] = ic*dh + x0` and `yc[jc] = jc*dh + y0` with x0 = 565500, y0 = 4837000, dh = 30 |
| Pfb2Vtk.Layer | Parflow_Postprocessing/parflow_pfb2vtk.py:52 | `var[:,:,z]` is an `ny` x `nx` grid |
| Pfb2Vtk.FlattenColumns | Parflow_Postprocessing/parflow_pfb2vtk.py:58-64 | the loop fills `nn` with exactly the column-major flattening of `P` |
| Pfb2Vtk.LayerIsSwe | Parflow_Postprocessing/parflow_pfb2vtk.py:52 | the layer taken from the decoded volume is layer 10 of the reference volume |
| Pfb2Vtk.ConvertTimestep | Parflow_Postprocessing/parflow_pfb2vtk.py:23-131 | one time step gives exactly the file `Convert` describes, or the reason there is none, in the script's order: a bad `.pfb`, no layer 10, a DEM `np.loadtxt` does not read as a 2-D array of at least 2 x 2, or a DEM smaller than the field |
| Pfb2Vtk.ConvertOk | Parflow_Postprocessing/parflow_pfb2vtk.py:34-131 | a produced file comes from a volume with more than 10 layers and a rectangular DEM of at least 2 x 2 cells that is large enough, and it is the VTK file of the packed coordinates, the flipped DEM and the layer-10 grid |
| Pfb2Vtk.FileContents | Parflow_Postprocessing/parflow_pfb2vtk.py:101-131 | in the produced file, point `kc = ic + jc*cols` has record `(x of ic, y of jc, elevation)`, where the elevation is from DEM row `rows_dem-1-jc`; the same elevation word follows in the Elevation block, the SWE block holds SWE cell `[jc][ic]`, and the file ends right after the SWE block |
| Vtk.WritePointRow | Parflow_Postprocessing/parflow_pfb2vtk.py:102-112 | the inner loop appends the 24-byte records of row `jc`, in column order |
| Vtk.WritePoints | Parflow_Postprocessing/parflow_pfb2vtk.py:101-112 | the point loops append every point record in order `kc = ic + jc*cols` |
| Vtk.WriteSampleRow | Parflow_Postprocessing/parflow_pfb2vtk.py:118-122 | the inner loop appends the 8-byte values of row `jc`, in column order |
| Vtk.WriteSamples | Parflow_Postprocessing/parflow_pfb2vtk.py:117-122 | the scalar loops append one 8-byte value per point, in point order |
| Vtk.Write | Parflow_Postprocessing/parflow_pfb2vtk.py:97-131 | the bytes written are exactly `File`: header text, point records, elevation heading, elevations, SWE heading, SWE values |
| Vtk.FileLayout | Parflow_Postprocessing/parflow_pfb2vtk.py:97-131 | the file is `SweStart + 8n` bytes long and opens with the header text (the four fixed lines, `DIMENSIONS cols rows 1`, `POINTS n double`) |
| Vtk.FilePoints | Parflow_Postprocessing/parflow_pfb2vtk.py:101-112 | the 24n bytes after the header are the point records |
| Vtk.FileElevations | Parflow_Postprocessing/parflow_pfb2vtk.py:113-122 | the 8n bytes after the `LOOKUP_TABLE` line of `Elevation` are the elevations, in point order |
| Vtk.FileSwe | Parflow_Postprocessing/parflow_pfb2vtk.py:123-131 | the last 8n bytes of the file are the SWE values, in point order, with nothing after them |
| Vtk.PointInFile | Parflow_Postprocessing/parflow_pfb2vtk.py:103-112 | the record of point `kc = ic + jc*cols` is x of column `ic`, y of row `jc`, then elevation `[jc][ic]` |
| Vtk.ElevationInFile | Parflow_Postprocessing/parflow_pfb2vtk.py:119-122 | the Elevation value of point `kc` is DEM word `[jc][ic]` |
| Vtk.SweInFile | Parflow_Postprocessing/parflow_pfb2vtk.py:128-131 | the SWE value of point `kc` is SWE word `[jc][ic]` |
| Vtk.DimensionsTokens | Parflow_Postprocessing/parflow_pfb2vtk.py:99 | the `DIMENSIONS` line splits into the keyword, the column count, the row count and `1` |
| Vtk.ReadDimensionsLine | Parflow_Postprocessing/parflow_pfb2vtk.py:99 | a reader of the `DIMENSIONS` line recovers `(Pcols, Prows)` |
| Vtk.PointsTokens | Parflow_Postprocessing/parflow_pfb2vtk.py:100 | the `POINTS` line splits into the keyword, the point count and `double` |
| Vtk.ReadPointsLine | Parflow_Postprocessing/parflow_pfb2vtk.py:80-100 | a reader of the `POINTS` line recovers `Pcols*Prows`, one point per cell |
| PfclmConvert.BottomUp | Parflow_Preprocessing/pfclmConvert.py:60-62 | flip, transpose and the Fortran-order reshape give `rows*cols` values |
| PfclmConvert.BottomUpAt | Parflow_Preprocessing/pfclmConvert.py:60-62 | position `c + r*cols` holds `mr[rows-1-r][c]`: bottom row first, each row left to right |
| PfclmConvert.UnflattenBottomUp | Parflow_Preprocessing/pfclmConvert.py:60-62 | the flattening loses nothing: the grid is recovered from it |
| PfclmConvert.NumbersAt | Parflow_Preprocessing/pfclmConvert.py:97-101 | the meshgrid numbering gives the cell at position `c + r*cols` the coordinates `(c+1, r+1)` |
| PfclmConvert.DemToSaValues | Parflow_Preprocessing/pfclmConvert.py:54-66 | `asciiDEM2sa` fails exactly when the map has fewer than 2 rows or 2 columns (its shape lookup fails); otherwise it returns `(rows, cols)`, and its file holds `rows*cols` values from which the DEM is recovered whole |
| PfclmConvert.SoilLinesAt | Parflow_Preprocessing/pfclmConvert.py:274-280 | soil triple `c + r*cols` is `(c+1, r+1, ms[rows-1-r][c])` |
| PfclmConvert.SoilToSaLine | Parflow_Preprocessing/pfclmConvert.py:272-282 | the soil file has a header and `rows*cols` lines; line `1 + c + r*cols` is the tab-separated triple `(c+1, r+1, class)`, with the class printed by `%d` |
| PfclmConvert.NlcdColumn | Parflow_Preprocessing/pfclmConvert.py:123-145 | every NLCD column the table names is below 18 |
| PfclmConvert.NlcdColumnInjective | Parflow_Preprocessing/pfclmConvert.py:123-145 | no two NLCD classes share a column |
| PfclmConvert.NlcdListed | Parflow_Preprocessing/pfclmConvert.py:123-145 | the NLCD table lists exactly the classes 11, 12, 22, 31, 41, 42, 43, 52, 71, 82 and 90 |
| PfclmConvert.ModisColumnCode | Parflow_Preprocessing/pfclmConvert.py:186-220 | each MODIS class 0..16 has a column below 17, and `ModisCode` of that column is the class |
| PfclmConvert.ModisCodeColumn | Parflow_Preprocessing/pfclmConvert.py:186-220 | conversely, every column below 17 is the column of class `ModisCode(col)`, so the MODIS table is a bijection |
| PfclmConvert.ModisListed | Parflow_Preprocessing/pfclmConvert.py:186-220 | the MODIS table lists exactly the whole codes 0..16 |
| PfclmConvert.RemapCover | Parflow_Preprocessing/pfclmConvert.py:123-150 | each `lcd_val[i]` becomes the table's column for code `i`, or keeps its old value for an unlisted code, and stays below 18; each `vegmat` row gets a 1.0 in that column and nothing else changes (the same loop is at lines 186-225 for MODIS) |
| PfclmConvert.CoverColumn | Parflow_Preprocessing/pfclmConvert.py:90-150 | a cell's cover column is below 18, and it is 0 for a code the table does not list, because `lcd_val` starts at zero |
| PfclmConvert.OneHotPrefixSum | Parflow_Preprocessing/pfclmConvert.py:147-150 | a one-hot row's first `n` entries sum to 1 once they include its column, and to 0 before |
| PfclmConvert.OneHotCover | Parflow_Preprocessing/pfclmConvert.py:147-150 | every cell is fully covered by one class: its row has a single 1.0, all other entries are 0.0, and it sums to 1 |
| PfclmConvert.CellRecordAt | Parflow_Preprocessing/pfclmConvert.py:95-161 | the record at position `c + r*cols` is numbered `(c+1, r+1)`, and its cover is the one class of `mlc[rows-1-r][c]`, summing to 1 |
| PfclmConvert.EmitRecords | Parflow_Preprocessing/pfclmConvert.py:160-176 | record `i` is `(Sxc[i], Syc[i], 43.72, -116.11, 0.16, 0.26, 2, vegmat row i)`, one per cell, in order |
| PfclmConvert.LandCoverToClm | Parflow_Preprocessing/pfclmConvert.py:80-112 | a map of fewer than 2 rows or 2 columns gives `MapNotTwoD` (the shape lookup fails first); otherwise `NLCD` and `MODIS` give exactly the records `CellRecords` describes for that table, and any other name gives `UnknownDataset` and no file |
| PfclmConvert.ReadField | Parflow_Preprocessing/pfclmConvert.py:310-313 | reading `count` lines yields `count` values |
| PfclmConvert.ReadFieldAt | Parflow_Preprocessing/pfclmConvert.py:310-313 | reading succeeds exactly when every line read does, and value `p` comes from line `1 + p` |
| PfclmConvert.ReadFieldAll | Parflow_Preprocessing/pfclmConvert.py:310-313 | when line `1 + p` reads as `vs[p]` for every `p`, reading gives exactly `vs` |
| PfclmConvert.ReadFieldSticky | Parflow_Preprocessing/pfclmConvert.py:310-313 | the first failure ends the reading: reading further reports the same error |
| PfclmConvert.ReadFieldStep | Parflow_Preprocessing/pfclmConvert.py:312 | reading one more line fails exactly when that line does, with its error |
| PfclmConvert.ReadSoilRow | Parflow_Preprocessing/pfclmConvert.py:311-313 | the inner loop fills row `j` of `soil` from consecutive lines, fails exactly when one of them fails, and changes no other row |
| PfclmConvert.ReadSoil | Parflow_Preprocessing/pfclmConvert.py:308-313 | the reading loops succeed exactly when `ReadField` does, with the same error; on success `soil[i, j]` is the value of line `1 + j*nx + i` |
| PfclmConvert.StackAt | Parflow_Preprocessing/pfclmConvert.py:316-331 | output position `k*nx*ny + j*nx + i` is 0 in the bottom `nz-ns` layers, and above them the soil class of column `i`, row `j` |
| PfclmConvert.FillLayers | Parflow_Preprocessing/pfclmConvert.py:316-322 | `indi[i, j, k]` is 0 when `k < nz-ns` and `soil[i, j]` otherwise |
| PfclmConvert.EmitRow | Parflow_Preprocessing/pfclmConvert.py:330-331 | the innermost print loop appends row `j` of layer `k`, `i` fastest |
| PfclmConvert.EmitLayer | Parflow_Preprocessing/pfclmConvert.py:329-331 | the middle loop appends layer `k`, row by row |
| PfclmConvert.EmitLayers | Parflow_Preprocessing/pfclmConvert.py:328-331 | the print loops emit every value of `indi`, `k` outermost and `i` fastest |
| PfclmConvert.IndiRowsAt | Parflow_Preprocessing/pfclmConvert.py:329-331 | value `t` of a layer's rows is `indi[t % nx, t / nx, k]` |
| PfclmConvert.LayerOffset | Parflow_Preprocessing/pfclmConvert.py:328-331 | value `u` of layer `k` is at output position `k*nx*ny + u`, and that position decomposes back to layer `k` |
| PfclmConvert.IndiLayersAt | Parflow_Preprocessing/pfclmConvert.py:328-331 | output position `t` holds `indi[t % nx, (t/nx) % ny, t/(nx*ny)]` |
| PfclmConvert.CellOf | Parflow_Preprocessing/pfclmConvert.py:316-331 | output position `t` and `Stack` position `t` belong to the same cell `(i, j, k)` |
| PfclmConvert.Stacked | Parflow_Preprocessing/pfclmConvert.py:308-331 | reading, layering and emitting together give `Stack` of the values read |
| PfclmConvert.SoilToIndicator | Parflow_Preprocessing/pfclmConvert.py:302-331 | `soilsa2indisa` gives exactly `Indicator`: `NegativeSize` for a negative size, the first reading error, or the size line `nx ny nz` with the stacked values |
| PfclmConvert.SoilLineTokens | Parflow_Preprocessing/pfclmConvert.py:282 | a soil line splits into exactly its three numbers |
| PfclmConvert.SoilLineValue | Parflow_Preprocessing/pfclmConvert.py:312 | the third field of soil line `1 + c + r*cols` reads back as the truncated class of `ms[rows-1-r][c]` |
| PfclmConvert.SoilClassesAt | Parflow_Preprocessing/pfclmConvert.py:310-313 | the class read from line `1 + p` belongs to column `p % cols`, row `p / cols` from the bottom |
| PfclmConvert.SoilClassAt | Parflow_Preprocessing/pfclmConvert.py:310-313 | line `p + 1` of the soil file reads as class `p` of `SoilClasses` |
| PfclmConvert.SoilIndicatorRoundTrip | Parflow_Preprocessing/pfclmConvert.py:255-331 | `asciiSoil2sa` writes a file exactly when the map has at least 2 rows and 2 columns; that file, read by `soilsa2indisa` with `nx = cols` and `ny = rows`, always succeeds, and gives the size line and the stack of the truncated soil classes, bottom row first |

## Left out

- File handling is not modelled: opening, reading and writing files, file names, header-line skipping (`lh`) and the coloured progress messages. Bytes and lines are passed in, and results are returned.
- The time-step loop `nf1..nf2` of `parflow_pfb2vtk.py` is not modelled. The model converts one time step.
- IEEE-754 doubles are not decoded. A `>f8` value is its 8 bytes. A value read from the `.pfb` and written again by `struct.pack('>d')` is assumed to keep those 8 bytes. The zero of `np.zeros` is the 8 zero bytes of +0.0.
- `struct.pack('>d', …)` of the coordinates is a parameter, and so is the DEM as packed words. The DEM's text parsing by `np.loadtxt` is not modelled.
- Python's `float()` is a parameter. The round trip assumes it reads back exactly what `%d` prints.
- Decimal text formatting of floats is not modelled: `%f` (DEM values), `%5.2f` and `%4.2f` (CLM records) and `print` of a float (indicator values). Those files are modelled as their header and their values, or as records.
- PfclmConvert.LandCoverToClm: the two fixed heading lines of `drv_vegm.alluv.dat` are not modelled. Nor are the `\r\n` record endings. The input path always names an `.nlcd.asc` file; that path is also not modelled.
- PfclmConvert.LandCoverToClm: the unused `lat`, `lon`, `sand`, `clay` and `color` arrays are modelled as the constants the loop stores in them.
- `parflow_pfb2vtk.py` also builds arrays it never writes out: `nn` after it is filled, `a`, `b`, `c`, `var1`, `var2` and `var3`. Only `nn`'s filling is modelled (`FlattenColumns`). The others are replaced by the values they pass to `struct.pack`.
- Pfb.ParseBlock: a subgrid that reaches outside the volume is refused with `SubgridOutOfBounds`, before any of its values are read. The script instead fails with an index error at the first such cell, after scattering the values before it. For a negative offset, numpy's negative indexing would even write silently into the far end of the volume; the model refuses that case too, because it is evidently unintended.
- Pfb.Decode: a file that ends early is refused as a whole. The script fails on the first missing value, part-way through a block. A failed decode is modelled as no volume at all.
- Pfb2Vtk.ConvertTimestep: a DEM smaller than the SWE field gives `DemTooSmall` and no file. The script has already written part of the file when it fails: the header text and every point record before the first missing DEM cell.
- The refinement factors `rx`, `ry` and `rz` are read and then ignored, as in the script, so `Subgrid` does not hold them.
- PfclmConvert.SoilToSa: soil values are modelled as finite reals, and so are the results of `float()` in `soilsa2indisa`. The NaN and infinity paths are not modelled. In the script, `%d` of a NaN soil value raises ValueError and of an infinity raises OverflowError, and `float()` reads `nan` and `inf` fields that the script then prints. The model's `real` values cannot hold them.
- PfclmConvert.SoilToIndicator: the script's `int()` conversion of its size arguments is not modelled. The sizes are given as integers.

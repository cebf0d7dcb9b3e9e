/// The ParFlow binary grid format (`.pfb`) as parflow_pfb2vtk.py reads it:
/// a 64-byte big-endian header, then `ns` subgrid blocks, each a 36-byte
/// descriptor followed by its cell values, scattered into a dense
/// `[ny][nx][nz]` volume that starts out all zero.
module Pfb {
  import opened Wrappers
  import opened Bytes
  import opened Arith
  import opened Grids

  datatype Header = Header(
    x0: Word, y0: Word, z0: Word,
    nx: int, ny: int, nz: int,
    dx: Word, dy: Word, dz: Word,
    ns: int)

  /// A subgrid descriptor: its offset and its extent. The descriptor ends
  /// with three refinement factors, which are read and never used, so the
  /// model keeps only their bytes' position.
  datatype Subgrid = Subgrid(
    ix: int, iy: int, iz: int,
    nnx: int, nny: int, nnz: int)

  datatype Block = Block(sub: Subgrid, values: seq<Word>)

  datatype Pfb = Pfb(header: Header, blocks: seq<Block>)

  /// The script stops with an exception in each of these cases; the model
  /// names them instead. Negative subgrid offsets, which numpy would wrap
  /// around, are refused as out of bounds.
  datatype PfbError =
    | IncompleteHeader
    | InvalidDimensions
    | IncompleteSubgrid
    | SubgridOutOfBounds

  const HeaderSize: nat := 64
  const DescriptorSize: nat := 36
  /// The offset and extent fields at the front of a descriptor.
  const ExtentFields: nat := 24

  function WordAt(s: seq<byte>, p: nat): Word
    requires p + 8 <= |s|
  {
    s[p..p + 8]
  }

  function I32At(s: seq<byte>, p: nat): int
    requires p + 4 <= |s|
  {
    DecodeI32(s[p..p + 4])
  }

  /// The number of iterations of `range(lo, lo + n)` when `lo` and `n` are
  /// numpy int32 values, so that `lo + n` wraps around.
  function Extent(lo: int, n: int): (e: nat)
    ensures IsInt32(lo + n) ==> e == if n > 0 then n else 0
  {
    var hi := Wrap32(lo + n);
    if hi > lo then hi - lo else 0
  }

  function ExtX(g: Subgrid): nat { Extent(g.ix, g.nnx) }
  function ExtY(g: Subgrid): nat { Extent(g.iy, g.nny) }
  function ExtZ(g: Subgrid): nat { Extent(g.iz, g.nnz) }

  /// Cells in one z-layer of the subgrid.
  function Plane(g: Subgrid): nat { ExtX(g) * ExtY(g) }

  /// Number of values the block stores, and reads from the stream.
  function Cells(g: Subgrid): nat { ExtZ(g) * Plane(g) }

  /// Cell `[y][x][z]` of the volume lies in the subgrid.
  predicate Covers(g: Subgrid, y: int, x: int, z: int) {
    && g.iy <= y < g.iy + ExtY(g)
    && g.ix <= x < g.ix + ExtX(g)
    && g.iz <= z < g.iz + ExtZ(g)
  }

  /// Position, among the block's values, of the value for cell `[y][x][z]`:
  /// z outermost, then y, then x innermost.
  function Offset(g: Subgrid, y: int, x: int, z: int): int {
    (z - g.iz) * Plane(g) + (y - g.iy) * ExtX(g) + (x - g.ix)
  }

  /// The subgrid writes no cell outside the `[ny][nx][nz]` volume.
  predicate InBounds(g: Subgrid, nx: int, ny: int, nz: int) {
    || ExtX(g) == 0 || ExtY(g) == 0 || ExtZ(g) == 0
    || (&& 0 <= g.ix && g.ix + ExtX(g) <= nx
        && 0 <= g.iy && g.iy + ExtY(g) <= ny
        && 0 <= g.iz && g.iz + ExtZ(g) <= nz)
  }

  predicate WellSized(b: Block) {
    |b.values| == Cells(b.sub)
  }

  predicate AllWellSized(bs: seq<Block>) {
    forall i :: 0 <= i < |bs| ==> WellSized(bs[i])
  }

  lemma OffsetInRange(g: Subgrid, y: int, x: int, z: int)
    requires Covers(g, y, x, z)
    ensures 0 <= Offset(g, y, x, z) < Cells(g)
  {
    Compose3(z - g.iz, y - g.iy, x - g.ix, ExtX(g), ExtY(g), ExtZ(g));
  }

  /// The `t`-th value of a block lands on the cell
  /// `[iy + (t / nnx) % nny][ix + t % nnx][iz + t / (nnx * nny)]`
  /// (with the extents in place of `nnx`, `nny`).
  lemma ScatterPosition(g: Subgrid, t: nat)
    requires t < Cells(g)
    ensures var ex, ey := ExtX(g), ExtY(g);
      ex > 0 && ey > 0 &&
      var y, x, z := g.iy + (t / ex) % ey, g.ix + t % ex, g.iz + t / (ex * ey);
      Covers(g, y, x, z) && Offset(g, y, x, z) == t
  {
    Decompose3(t, ExtX(g), ExtY(g), ExtZ(g));
  }

  /// Conversely, every covered cell is the cell of exactly its `Offset`-th
  /// value, so the scatter is a bijection between `0 .. Cells` and the
  /// covered cells.
  lemma ScatterInverse(g: Subgrid, y: int, x: int, z: int)
    requires Covers(g, y, x, z)
    ensures var t, ex, ey := Offset(g, y, x, z), ExtX(g), ExtY(g);
      0 <= t < Cells(g) && ex > 0 && ey > 0 &&
      y == g.iy + (t / ex) % ey && x == g.ix + t % ex && z == g.iz + t / (ex * ey)
  {
    Compose3(z - g.iz, y - g.iy, x - g.ix, ExtX(g), ExtY(g), ExtZ(g));
  }

  function ParseHeader(s: seq<byte>): (r: Result<Header, PfbError>)
    ensures r.Err? <==> |s| < HeaderSize
  {
    if |s| < HeaderSize then Err(IncompleteHeader)
    else Ok(Header(
      WordAt(s, 0), WordAt(s, 8), WordAt(s, 16),
      I32At(s, 24), I32At(s, 28), I32At(s, 32),
      WordAt(s, 36), WordAt(s, 44), WordAt(s, 52),
      I32At(s, 60)))
  }

  function ParseSubgrid(s: seq<byte>, pos: nat): Subgrid
    requires pos + ExtentFields <= |s|
  {
    Subgrid(
      I32At(s, pos), I32At(s, pos + 4), I32At(s, pos + 8),
      I32At(s, pos + 12), I32At(s, pos + 16), I32At(s, pos + 20))
  }

  /// Where the reads of the descriptor at `pos` leave the cursor: after
  /// its 36 bytes, or at the end of the file when its refinement factors
  /// are cut short, since a short read consumes the bytes that remain. A
  /// missing factor is an empty array that nothing uses.
  function DescriptorEnd(s: seq<byte>, pos: nat): (d: nat)
    requires pos + ExtentFields <= |s|
    ensures pos + ExtentFields <= d <= |s|
    ensures d == pos + DescriptorSize <==> pos + DescriptorSize <= |s|
    ensures d < pos + DescriptorSize ==> d == |s|
  {
    if pos + DescriptorSize <= |s| then pos + DescriptorSize else |s|
  }

  /// The `cells` consecutive values stored from `data` on.
  function BlockValues(s: seq<byte>, data: nat, cells: nat): (vs: seq<Word>)
    requires data + 8 * cells <= |s|
    ensures |vs| == cells
  {
    seq(cells, t requires 0 <= t < cells => WordAt(s, data + 8 * t))
  }

  /// One block at `pos`; on success also the position after it, which is
  /// `36 + 8 * cells` bytes further on, or the end of the file for a last
  /// block without cells whose refinement factors are cut off.
  function ParseBlock(s: seq<byte>, pos: nat, h: Header): (r: Result<(Block, nat), PfbError>)
    ensures r.Ok? ==> var (b, next) := r.value;
      WellSized(b) && InBounds(b.sub, h.nx, h.ny, h.nz) && next <= |s| &&
      (pos + DescriptorSize <= |s| ==> next == pos + DescriptorSize + 8 * Cells(b.sub)) &&
      (pos + DescriptorSize > |s| ==> Cells(b.sub) == 0 && next == |s|)
    ensures pos + ExtentFields > |s| ==> r == Err(IncompleteSubgrid)
  {
    if pos + ExtentFields > |s| then Err(IncompleteSubgrid)
    else
      var g := ParseSubgrid(s, pos);
      var data := DescriptorEnd(s, pos);
      if !InBounds(g, h.nx, h.ny, h.nz) then Err(SubgridOutOfBounds)
      else if data + 8 * Cells(g) > |s| then Err(IncompleteSubgrid)
      else
        Ok((Block(g, BlockValues(s, data, Cells(g))), data + 8 * Cells(g)))
  }

  /// `n` consecutive blocks starting at `pos`.
  function ParseBlocks(s: seq<byte>, pos: nat, h: Header, n: nat): (r: Result<seq<Block>, PfbError>)
    ensures r.Ok? ==> |r.value| == n && AllWellSized(r.value)
    decreases n
  {
    if n == 0 then Ok([])
    else match ParseBlock(s, pos, h)
      case Err(e) => Err(e)
      case Ok((b, next)) => Prepend([b], ParseBlocks(s, next, h, n - 1))
  }

  function Prepend(bs: seq<Block>, r: Result<seq<Block>, PfbError>): Result<seq<Block>, PfbError> {
    match r
    case Ok(rest) => Ok(bs + rest)
    case Err(e) => Err(e)
  }

  /// The loop `for i0 in range(ns)` runs `ns` times, and not at all when
  /// `ns` is negative.
  function BlockCount(h: Header): nat {
    if h.ns > 0 then h.ns else 0
  }

  /// The whole file: the header, a check that `np.zeros` accepts the
  /// dimensions, then the blocks. Bytes after the last block are ignored.
  function Parse(s: seq<byte>): (r: Result<Pfb, PfbError>)
    ensures r.Ok? ==> var h := r.value.header;
      h.nx >= 0 && h.ny >= 0 && h.nz >= 0 &&
      |r.value.blocks| == BlockCount(h) && AllWellSized(r.value.blocks)
  {
    match ParseHeader(s)
    case Err(e) => Err(e)
    case Ok(h) =>
      if h.nx < 0 || h.ny < 0 || h.nz < 0 then Err(InvalidDimensions)
      else match ParseBlocks(s, HeaderSize, h, BlockCount(h))
        case Err(e) => Err(e)
        case Ok(bs) => Ok(Pfb(h, bs))
  }

  /// The value the volume holds at `[y][x][z]` once `bs` have been
  /// scattered into it in order: that of the last block covering the cell,
  /// and the `0.0` of `np.zeros` when none does.
  function Paint(bs: seq<Block>, y: int, x: int, z: int): Word
    requires AllWellSized(bs)
  {
    if bs == [] then Zero
    else
      var b := bs[|bs| - 1];
      if Covers(b.sub, y, x, z) then
        OffsetInRange(b.sub, y, x, z);
        b.values[Offset(b.sub, y, x, z)]
      else Paint(bs[..|bs| - 1], y, x, z)
  }

  /// A cell no block covers keeps the initial zero; in particular with
  /// `ns = 0` the whole volume is zero.
  lemma {:induction false} PaintUncovered(bs: seq<Block>, y: int, x: int, z: int)
    requires AllWellSized(bs)
    requires forall i :: 0 <= i < |bs| ==> !Covers(bs[i].sub, y, x, z)
    ensures Paint(bs, y, x, z) == Zero
  {
    if bs != [] {
      PaintUncovered(bs[..|bs| - 1], y, x, z);
    }
  }

  /// Where blocks overlap the later one wins: the cell holds the value of
  /// the last block that covers it.
  lemma {:induction false} PaintLastCover(bs: seq<Block>, i: nat, y: int, x: int, z: int)
    requires AllWellSized(bs)
    requires i < |bs| && Covers(bs[i].sub, y, x, z)
    requires forall j :: i < j < |bs| ==> !Covers(bs[j].sub, y, x, z)
    ensures 0 <= Offset(bs[i].sub, y, x, z) < |bs[i].values|
    ensures Paint(bs, y, x, z) == bs[i].values[Offset(bs[i].sub, y, x, z)]
  {
    OffsetInRange(bs[i].sub, y, x, z);
    if i < |bs| - 1 {
      PaintLastCover(bs[..|bs| - 1], i, y, x, z);
    }
  }

  /// Scattering one more block changes exactly the cells it covers.
  lemma PaintAppend(done: seq<Block>, b: Block, y: int, x: int, z: int)
    requires AllWellSized(done) && WellSized(b)
    ensures AllWellSized(done + [b])
    ensures Covers(b.sub, y, x, z) ==> 0 <= Offset(b.sub, y, x, z) < |b.values|
    ensures Paint(done + [b], y, x, z) ==
      if Covers(b.sub, y, x, z) then b.values[Offset(b.sub, y, x, z)] else Paint(done, y, x, z)
  {
    assert (done + [b])[..|done|] == done;
    if Covers(b.sub, y, x, z) {
      OffsetInRange(b.sub, y, x, z);
    }
  }

  lemma PrependAppend(done: seq<Block>, b: Block, r: Result<seq<Block>, PfbError>)
    ensures Prepend(done, Prepend([b], r)) == Prepend(done + [b], r)
  {
    if r.Ok? {
      assert done + ([b] + r.value) == done + [b] + r.value;
    }
  }

  /// Bytes appended after a block do not change what is read for it.
  lemma ParseBlockExtend(s: seq<byte>, t: seq<byte>, pos: nat, h: Header)
    requires ParseBlock(s, pos, h).Ok?
    ensures ParseBlock(s + t, pos, h).Ok?
    ensures ParseBlock(s + t, pos, h).value.0 == ParseBlock(s, pos, h).value.0
    ensures pos + DescriptorSize <= |s| ==> ParseBlock(s + t, pos, h) == ParseBlock(s, pos, h)
  {
    var u := s + t;
    forall k | 0 <= k < 6
      ensures I32At(u, pos + 4 * k) == I32At(s, pos + 4 * k)
    {
      I32AtExtend(s, t, pos + 4 * k);
    }
    assert ParseSubgrid(u, pos) == ParseSubgrid(s, pos);
    var g := ParseSubgrid(s, pos);
    var d := DescriptorEnd(s, pos);
    if pos + DescriptorSize <= |s| {
      forall i | 0 <= i < Cells(g)
        ensures WordAt(u, d + 8 * i) == WordAt(s, d + 8 * i)
      {
        WordAtExtend(s, t, d + 8 * i);
      }
      assert BlockValues(u, d, Cells(g)) == BlockValues(s, d, Cells(g));
    } else {
      assert BlockValues(u, DescriptorEnd(u, pos), 0) == BlockValues(s, d, 0);
    }
  }

  lemma HeaderExtend(s: seq<byte>, t: seq<byte>)
    requires HeaderSize <= |s|
    ensures ParseHeader(s + t) == ParseHeader(s)
  {
    WordAtExtend(s, t, 0);
    WordAtExtend(s, t, 8);
    WordAtExtend(s, t, 16);
    I32AtExtend(s, t, 24);
    I32AtExtend(s, t, 28);
    I32AtExtend(s, t, 32);
    WordAtExtend(s, t, 36);
    WordAtExtend(s, t, 44);
    WordAtExtend(s, t, 52);
    I32AtExtend(s, t, 60);
  }

  lemma I32AtExtend(s: seq<byte>, t: seq<byte>, p: nat)
    requires p + 4 <= |s|
    ensures I32At(s + t, p) == I32At(s, p)
  {
    assert (s + t)[p..p + 4] == s[p..p + 4];
  }

  lemma WordAtExtend(s: seq<byte>, t: seq<byte>, p: nat)
    requires p + 8 <= |s|
    ensures WordAt(s + t, p) == WordAt(s, p)
  {
    assert (s + t)[p..p + 8] == s[p..p + 8];
  }

  /// Bytes appended after the last block do not change the blocks read:
  /// a block cut short can only be the last one.
  lemma {:induction false} ParseBlocksExtend(s: seq<byte>, t: seq<byte>, pos: nat, h: Header, n: nat)
    requires ParseBlocks(s, pos, h, n).Ok?
    ensures ParseBlocks(s + t, pos, h, n) == ParseBlocks(s, pos, h, n)
    decreases n
  {
    if n > 0 {
      var next := ParseBlock(s, pos, h).value.1;
      ParseBlockExtend(s, t, pos, h);
      if pos + DescriptorSize <= |s| {
        ParseBlocksExtend(s, t, next, h, n - 1);
      } else {
        assert ParseBlock(s, next, h).Err?;
        assert n == 1;
      }
    }
  }

  /// Trailing bytes after a well-formed file are never read: the file
  /// decodes to the same header and blocks.
  lemma ParseExtend(s: seq<byte>, t: seq<byte>)
    requires Parse(s).Ok?
    ensures Parse(s + t) == Parse(s)
  {
    HeaderExtend(s, t);
    var h := ParseHeader(s).value;
    ParseBlocksExtend(s, t, HeaderSize, h, BlockCount(h));
  }

  /// An open `.pfb` file: its bytes and the position each
  /// `np.fromfile(fid, ..., count=1)` advances.
  class Reader {
    const data: seq<byte>
    var pos: nat

    ghost predicate Valid()
      reads this
    {
      pos <= |data|
    }

    constructor(s: seq<byte>)
      ensures data == s && pos == 0 && Valid()
    {
      data := s;
      pos := 0;
    }

    /// `np.fromfile(fid, dtype='>f8', count=1)`: the next 8 bytes, or
    /// nothing at the end of the file. A short read still consumes the
    /// bytes that remain, as C `fread` does.
    method ReadF8() returns (w: Option<Word>)
      requires Valid()
      modifies this
      ensures Valid()
      ensures old(pos) + 8 <= |data| ==> w == Some(WordAt(data, old(pos))) && pos == old(pos) + 8
      ensures old(pos) + 8 > |data| ==> w.None? && pos == |data|
    {
      if pos + 8 > |data| {
        pos := |data|;
        return None;
      }
      w := Some(WordAt(data, pos));
      pos := pos + 8;
    }

    /// `np.fromfile(fid, dtype='>i4', count=1)`, likewise.
    method ReadI32() returns (v: Option<int>)
      requires Valid()
      modifies this
      ensures Valid()
      ensures old(pos) + 4 <= |data| ==> v == Some(I32At(data, old(pos))) && pos == old(pos) + 4
      ensures old(pos) + 4 > |data| ==> v.None? && pos == |data|
    {
      if pos + 4 > |data| {
        pos := |data|;
        return None;
      }
      v := Some(I32At(data, pos));
      pos := pos + 4;
    }
  }

  /// Lines 24-33: the ten header fields, in file order.
  method ReadHeader(fid: Reader) returns (h: Option<Header>)
    requires fid.Valid() && fid.pos == 0
    modifies fid
    ensures fid.Valid()
    ensures h.None? <==> ParseHeader(fid.data).Err?
    ensures h.Some? ==> ParseHeader(fid.data) == Ok(h.value) && fid.pos == HeaderSize
  {
    if |fid.data| < HeaderSize {
      return None;
    }
    var x0 := fid.ReadF8();
    var y0 := fid.ReadF8();
    var z0 := fid.ReadF8();
    var nx := fid.ReadI32();
    var ny := fid.ReadI32();
    var nz := fid.ReadI32();
    var dx := fid.ReadF8();
    var dy := fid.ReadF8();
    var dz := fid.ReadF8();
    var ns := fid.ReadI32();
    h := Some(Header(x0.value, y0.value, z0.value, nx.value, ny.value, nz.value,
      dx.value, dy.value, dz.value, ns.value));
  }

  /// Lines 37-45: the nine descriptor fields of a block. Without the six
  /// offset and extent fields the loops of lines 47-49 cannot start; the
  /// refinement factors may be cut off by the end of the file.
  method ReadSubgrid(fid: Reader) returns (g: Option<Subgrid>)
    requires fid.Valid()
    modifies fid
    ensures fid.Valid()
    ensures g.None? <==> old(fid.pos) + ExtentFields > |fid.data|
    ensures g.Some? ==> g.value == ParseSubgrid(fid.data, old(fid.pos)) && fid.pos == DescriptorEnd(fid.data, old(fid.pos))
  {
    if fid.pos + ExtentFields > |fid.data| {
      return None;
    }
    var ix := fid.ReadI32();
    var iy := fid.ReadI32();
    var iz := fid.ReadI32();
    var nnx := fid.ReadI32();
    var nny := fid.ReadI32();
    var nnz := fid.ReadI32();
    var rx := fid.ReadI32();
    var ry := fid.ReadI32();
    var rz := fid.ReadI32();
    g := Some(Subgrid(ix.value, iy.value, iz.value, nnx.value, nny.value, nnz.value));
  }

  /// The value the block whose values start at `base` stores for the
  /// covered cell `[y][x][z]`.
  function CellValue(s: seq<byte>, base: nat, g: Subgrid, y: int, x: int, z: int): Word
    requires Covers(g, y, x, z) && base + 8 * Cells(g) <= |s|
  {
    OffsetInRange(g, y, x, z);
    WordAt(s, base + 8 * Offset(g, y, x, z))
  }

  /// Row `y` of layer `z` ends no later than the block's last value.
  lemma RowInBlock(g: Subgrid, y: int, z: int)
    requires g.iy <= y < g.iy + ExtY(g) && g.iz <= z < g.iz + ExtZ(g)
    ensures 0 <= Offset(g, y, g.ix, z) && Offset(g, y, g.ix, z) + ExtX(g) <= Cells(g)
  {
    RowEnd(z - g.iz, y - g.iy, ExtX(g), ExtY(g), ExtZ(g));
  }

  /// Line 50 for one row: `var[y, x, z]` for `x` in `ix .. ix + nnx`, one
  /// value read for each.
  method ScatterRow(fid: Reader, vol: array3<Word>, g: Subgrid, y: int, z: int, ghost base: nat)
    requires fid.Valid() && base + 8 * Cells(g) <= |fid.data|
    requires g.iy <= y < g.iy + ExtY(g) && g.iz <= z < g.iz + ExtZ(g)
    requires 0 <= y < vol.Length0 && 0 <= z < vol.Length2
    requires 0 <= g.ix && g.ix + ExtX(g) <= vol.Length1
    requires fid.pos == base + 8 * Offset(g, y, g.ix, z)
    modifies fid, vol
    ensures fid.Valid() && fid.pos == old(fid.pos) + 8 * ExtX(g)
    ensures forall y', x, z' :: 0 <= y' < vol.Length0 && 0 <= x < vol.Length1 && 0 <= z' < vol.Length2 ==>
      vol[y', x, z'] == if y' == y && z' == z && g.ix <= x < g.ix + ExtX(g) then CellValue(fid.data, base, g, y', x, z')
        else old(vol[y', x, z'])
  {
    RowInBlock(g, y, z);
    for x := g.ix to g.ix + ExtX(g)
      invariant fid.Valid() && fid.pos == base + 8 * Offset(g, y, x, z)
      invariant forall y', x', z' :: 0 <= y' < vol.Length0 && 0 <= x' < vol.Length1 && 0 <= z' < vol.Length2 ==>
        vol[y', x', z'] == if y' == y && z' == z && g.ix <= x' < x then CellValue(fid.data, base, g, y', x', z')
          else old(vol[y', x', z'])
    {
      var w := fid.ReadF8();
      vol[y, x, z] := w.value;
    }
  }

  /// Lines 48-50 for one layer: rows `iy .. iy + nny` of layer `z`.
  method ScatterLayer(fid: Reader, vol: array3<Word>, g: Subgrid, z: int, ghost base: nat)
    requires fid.Valid() && base + 8 * Cells(g) <= |fid.data|
    requires g.iz <= z < g.iz + ExtZ(g) && 0 <= z < vol.Length2
    requires 0 <= g.iy && g.iy + ExtY(g) <= vol.Length0
    requires 0 <= g.ix && g.ix + ExtX(g) <= vol.Length1
    requires fid.pos == base + 8 * Offset(g, g.iy, g.ix, z)
    modifies fid, vol
    ensures fid.Valid() && fid.pos == old(fid.pos) + 8 * Plane(g)
    ensures forall y, x, z' :: 0 <= y < vol.Length0 && 0 <= x < vol.Length1 && 0 <= z' < vol.Length2 ==>
      vol[y, x, z'] == if z' == z && Covers(g, y, x, z') then CellValue(fid.data, base, g, y, x, z')
        else old(vol[y, x, z'])
  {
    for y := g.iy to g.iy + ExtY(g)
      invariant fid.Valid() && fid.pos == base + 8 * Offset(g, y, g.ix, z)
      invariant forall y', x, z' :: 0 <= y' < vol.Length0 && 0 <= x < vol.Length1 && 0 <= z' < vol.Length2 ==>
        vol[y', x, z'] == if z' == z && Covers(g, y', x, z') && y' < y then CellValue(fid.data, base, g, y', x, z')
          else old(vol[y', x, z'])
    {
      ScatterRow(fid, vol, g, y, z, base);
      MulSucc(y - g.iy, ExtX(g));
    }
    assert ExtY(g) * ExtX(g) == Plane(g);
  }

  /// Lines 47-50: the block's values, z outermost, then y, x innermost.
  /// The script reads past the end of a short file and fails on the
  /// assignment; here a block with too few bytes left is refused before
  /// anything is written.
  method ScatterBlock(fid: Reader, vol: array3<Word>, g: Subgrid) returns (ok: bool)
    requires fid.Valid() && InBounds(g, vol.Length1, vol.Length0, vol.Length2)
    modifies fid, vol
    ensures fid.Valid()
    ensures ok <==> old(fid.pos) + 8 * Cells(g) <= |fid.data|
    ensures ok ==> fid.pos == old(fid.pos) + 8 * Cells(g)
    ensures ok ==> forall y, x, z :: 0 <= y < vol.Length0 && 0 <= x < vol.Length1 && 0 <= z < vol.Length2 ==>
      vol[y, x, z] == if Covers(g, y, x, z) then CellValue(fid.data, old(fid.pos), g, y, x, z)
        else old(vol[y, x, z])
  {
    if fid.pos + 8 * Cells(g) > |fid.data| {
      return false;
    }
    if ExtX(g) == 0 || ExtY(g) == 0 || ExtZ(g) == 0 {
      return true;
    }
    ghost var base := fid.pos;
    for z := g.iz to g.iz + ExtZ(g)
      invariant fid.Valid() && fid.pos == base + 8 * Offset(g, g.iy, g.ix, z)
      invariant forall y, x, z' :: 0 <= y < vol.Length0 && 0 <= x < vol.Length1 && 0 <= z' < vol.Length2 ==>
        vol[y, x, z'] == if Covers(g, y, x, z') && z' < z then CellValue(fid.data, base, g, y, x, z')
          else old(vol[y, x, z'])
    {
      ScatterLayer(fid, vol, g, z, base);
      MulSucc(z - g.iz, Plane(g));
    }
    return true;
  }

  /// The volume after the blocks of `p`: `[ny][nx][nz]`, each cell as
  /// `Paint` gives it.
  ghost predicate Holds(vol: array3<Word>, p: Pfb)
    reads vol
    requires AllWellSized(p.blocks)
  {
    && vol.Length0 == p.header.ny && vol.Length1 == p.header.nx && vol.Length2 == p.header.nz
    && forall y, x, z :: 0 <= y < vol.Length0 && 0 <= x < vol.Length1 && 0 <= z < vol.Length2 ==>
      vol[y, x, z] == Paint(p.blocks, y, x, z)
  }

  lemma PrependNil(r: Result<seq<Block>, PfbError>)
    ensures Prepend([], r) == r
  {
    if r.Ok? {
      assert [] + r.value == r.value;
    }
  }

  lemma PrependAll(bs: seq<Block>, r: Result<seq<Block>, PfbError>)
    requires r == Ok([])
    ensures Prepend(bs, r) == Ok(bs)
  {
    assert bs + [] == bs;
  }

  /// A block whose descriptor, bounds and values are all present parses
  /// to its descriptor and values.
  lemma ParseBlockOk(s: seq<byte>, pos: nat, h: Header, g: Subgrid)
    requires pos + ExtentFields <= |s| && g == ParseSubgrid(s, pos)
    requires InBounds(g, h.nx, h.ny, h.nz)
    requires DescriptorEnd(s, pos) + 8 * Cells(g) <= |s|
    ensures ParseBlock(s, pos, h) ==
      Ok((Block(g, BlockValues(s, DescriptorEnd(s, pos), Cells(g))), DescriptorEnd(s, pos) + 8 * Cells(g)))
  {
  }

  lemma ParseBlocksCons(s: seq<byte>, pos: nat, h: Header, m: nat, b: Block, next: nat)
    requires m > 0 && ParseBlock(s, pos, h) == Ok((b, next))
    ensures ParseBlocks(s, pos, h, m) == Prepend([b], ParseBlocks(s, next, h, m - 1))
  {
  }

  lemma ParseBlocksErr(s: seq<byte>, pos: nat, h: Header, m: nat, e: PfbError)
    requires m > 0 && ParseBlock(s, pos, h) == Err(e)
    ensures ParseBlocks(s, pos, h, m) == Err(e)
  {
  }

  /// One more block parsed moves it from the rest to the blocks done.
  lemma BlocksStep(s: seq<byte>, pos: nat, next: nat, h: Header, m: nat, bs: seq<Block>, b: Block)
    requires m > 0 && ParseBlock(s, pos, h) == Ok((b, next))
    ensures Prepend(bs, ParseBlocks(s, pos, h, m)) == Prepend(bs + [b], ParseBlocks(s, next, h, m - 1))
  {
    ParseBlocksCons(s, pos, h, m, b, next);
    PrependAppend(bs, b, ParseBlocks(s, next, h, m - 1));
  }

  /// A block that fails to parse is the error of the whole sequence.
  lemma BlocksStop(s: seq<byte>, pos: nat, h: Header, m: nat, bs: seq<Block>, e: PfbError)
    requires m > 0 && ParseBlock(s, pos, h) == Err(e)
    ensures Prepend(bs, ParseBlocks(s, pos, h, m)) == Err(e)
  {
    ParseBlocksErr(s, pos, h, m, e);
  }

  /// Lines 37-50 for one block: read its descriptor, check it, scatter its
  /// values. On success the volume holds `Paint` of one more block.
  method DecodeBlock(fid: Reader, vol: array3<Word>, h: Header, ghost done: seq<Block>)
    returns (e: Option<PfbError>, ghost b: Block)
    requires fid.Valid() && AllWellSized(done)
    requires vol.Length0 == h.ny && vol.Length1 == h.nx && vol.Length2 == h.nz
    requires forall y, x, z :: 0 <= y < vol.Length0 && 0 <= x < vol.Length1 && 0 <= z < vol.Length2 ==>
      vol[y, x, z] == Paint(done, y, x, z)
    modifies fid, vol
    ensures fid.Valid()
    ensures e.Some? ==> ParseBlock(fid.data, old(fid.pos), h) == Err(e.value)
    ensures e.None? ==> ParseBlock(fid.data, old(fid.pos), h) == Ok((b, fid.pos))
    ensures e.None? ==> WellSized(b) && AllWellSized(done + [b])
    ensures e.None? ==> forall y, x, z :: 0 <= y < vol.Length0 && 0 <= x < vol.Length1 && 0 <= z < vol.Length2 ==>
      vol[y, x, z] == Paint(done + [b], y, x, z)
  {
    ghost var s, pos := fid.data, fid.pos;
    b := Block(Subgrid(0, 0, 0, 0, 0, 0), []);
    var sub := ReadSubgrid(fid);
    if sub.None? {
      return Some(IncompleteSubgrid), b;
    }
    var g := sub.value;
    if !InBounds(g, h.nx, h.ny, h.nz) {
      return Some(SubgridOutOfBounds), b;
    }
    var ok := ScatterBlock(fid, vol, g);
    if !ok {
      return Some(IncompleteSubgrid), b;
    }
    b := Block(g, BlockValues(s, DescriptorEnd(s, pos), Cells(g)));
    ParseBlockOk(s, pos, h, g);
    forall y, x, z | 0 <= y < vol.Length0 && 0 <= x < vol.Length1 && 0 <= z < vol.Length2
      ensures vol[y, x, z] == Paint(done + [b], y, x, z)
    {
      PaintAppend(done, b, y, x, z);
    }
    e := None;
  }

  /// Line 36: `ns` blocks, one after another, into the zero volume.
  method DecodeBlocks(fid: Reader, vol: array3<Word>, h: Header) returns (e: Option<PfbError>, ghost bs: seq<Block>)
    requires fid.Valid() && fid.pos == HeaderSize
    requires vol.Length0 == h.ny && vol.Length1 == h.nx && vol.Length2 == h.nz
    requires forall y, x, z :: 0 <= y < vol.Length0 && 0 <= x < vol.Length1 && 0 <= z < vol.Length2 ==>
      vol[y, x, z] == Zero
    modifies fid, vol
    ensures e.Some? ==> ParseBlocks(fid.data, HeaderSize, h, BlockCount(h)) == Err(e.value)
    ensures e.None? ==> ParseBlocks(fid.data, HeaderSize, h, BlockCount(h)) == Ok(bs) && AllWellSized(bs)
    ensures e.None? ==> forall y, x, z :: 0 <= y < vol.Length0 && 0 <= x < vol.Length1 && 0 <= z < vol.Length2 ==>
      vol[y, x, z] == Paint(bs, y, x, z)
  {
    ghost var s := fid.data;
    var n := BlockCount(h);
    bs := [];
    PrependNil(ParseBlocks(s, HeaderSize, h, n));
    for i0 := 0 to n
      invariant fid.Valid()
      invariant ParseBlocks(s, HeaderSize, h, n) == Prepend(bs, ParseBlocks(s, fid.pos, h, n - i0))
      invariant AllWellSized(bs)
      invariant forall y, x, z :: 0 <= y < vol.Length0 && 0 <= x < vol.Length1 && 0 <= z < vol.Length2 ==>
        vol[y, x, z] == Paint(bs, y, x, z)
    {
      ghost var pos := fid.pos;
      var err;
      ghost var b;
      err, b := DecodeBlock(fid, vol, h, bs);
      if err.Some? {
        BlocksStop(s, pos, h, n - i0, bs, err.value);
        return err, bs;
      }
      BlocksStep(s, pos, fid.pos, h, n - i0, bs, b);
      bs := bs + [b];
    }
    PrependAll(bs, ParseBlocks(s, fid.pos, h, 0));
    e := None;
  }

  /// Lines 23-50 for one `.pfb` file: read the header, allocate the zero
  /// volume, then read and scatter each block in turn. It fails exactly
  /// when `Parse` does, with the same error, and otherwise fills the volume
  /// as `Paint` describes.
  method Decode(s: seq<byte>) returns (r: Result<Header, PfbError>, vol: array3<Word>)
    ensures Parse(s).Err? ==> r == Err(Parse(s).error)
    ensures Parse(s).Ok? ==> r == Ok(Parse(s).value.header) && Holds(vol, Parse(s).value)
  {
    vol := new Word[0, 0, 0];
    var fid := new Reader(s);
    var hd := ReadHeader(fid);
    if hd.None? {
      return Err(IncompleteHeader), vol;
    }
    var h := hd.value;
    if h.nx < 0 || h.ny < 0 || h.nz < 0 {
      return Err(InvalidDimensions), vol;
    }
    vol := new Word[h.ny, h.nx, h.nz]((y, x, z) => Zero);
    var e, bs := DecodeBlocks(fid, vol, h);
    if e.Some? {
      return Err(e.value), vol;
    }
    assert Parse(s) == Ok(Pfb(h, bs));
    r := Ok(h);
  }
}

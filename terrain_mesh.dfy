/**
 * The voxel terrain mesher of terrain.js, stated as values: the grid, the
 * clamped cell lookup, the quad emitted for each of a cell's six tests, the
 * sequence of quads the triple z/y/x loop emits, and the flat buffer layouts
 * that `tesselate` writes for a sequence of quads.
 *
 * Positions are kept DOUBLED: the source writes x-0.5 and x+0.5, the model
 * writes 2x-1 and 2x+1, so every coordinate is an integer.
 */
module TerrainMesh {

  /** A voxel map indexed [z][y][x]; 0 (or less) is empty, above 0 is solid. */
  type Grid = seq<seq<seq<int>>>

  /** A voxel map with the extents `tesselate` is given for it. */
  datatype Voxels = Voxels(data: Grid, xn: nat, yn: nat, zn: nat)

  /**
   * Every read `get` makes lands on a cell: planes 0 .. zn-1 exist, each holds
   * rows 0 .. yn-1, and each of those rows holds cells 0 .. xn-1. Planes, rows
   * and cells past the extents are allowed and never read.
   */
  predicate IsReadable(v: Voxels) {
    && v.zn <= |v.data|
    && (forall z :: 0 <= z < v.zn ==> v.yn <= |v.data[z]|)
    && (forall z, y :: 0 <= z < v.zn && 0 <= y < v.yn ==> v.xn <= |v.data[z][y]|)
  }

  /** A readable map with at least one cell on every axis, so that every clamped read lands on a cell. */
  predicate IsNonEmptyMap(v: Voxels) {
    IsReadable(v) && 1 <= v.xn && 1 <= v.yn && 1 <= v.zn
  }

  /** The maps `get` can read: the ones `loadMap` accepts. */
  type Box = v: Voxels | IsNonEmptyMap(v) witness Voxels([[[0]]], 1, 1, 1)

  function Dist(a: int, b: int): nat {
    if a <= b then b - a else a - b
  }

  /**
   * clamp(n, size): out-of-range coordinates read the edge cell, so for a
   * non-empty axis the result is always a valid coordinate.
   */
  function Clamp(n: int, size: int): (r: int)
    ensures n < 0 ==> r == 0
    ensures 0 <= n < size ==> r == n
    ensures 0 <= n && size <= n ==> r == size - 1
    ensures 1 <= size ==> 0 <= r < size
  {
    if n < 0 then 0
    else if n >= size then size - 1
    else n
  }

  /** For a non-empty axis, clamp picks the valid coordinate nearest to n. */
  lemma ClampIsNearest(n: int, size: int)
    requires 1 <= size
    ensures forall k :: 0 <= k < size ==> Dist(n, Clamp(n, size)) <= Dist(n, k)
  {
  }

  /** get(x, y, z): the value of the clamped cell. */
  function Get(b: Box, x: int, y: int, z: int): (r: int)
    ensures 0 <= x < b.xn && 0 <= y < b.yn && 0 <= z < b.zn ==> r == b.data[z][y][x]
  {
    b.data[Clamp(z, b.zn)][Clamp(y, b.yn)][Clamp(x, b.xn)]
  }

  /**
   * The six tests of one cell, in the order the loop body makes them:
   * x-1 ("left"), x+1 ("right"), y-1, y+1, z-1 ("bottom") and "top".
   */
  datatype Face = Left | Right | NegY | PosY | Bottom | Top

  /** An integer point; for positions each coordinate is twice the source's. */
  datatype Point = Point(x: int, y: int, z: int)

  /** One emitted quad: four corners (doubled) and the normal given to all four. */
  datatype Quad = Quad(c0: Point, c1: Point, c2: Point, c3: Point, normal: Point)

  /**
   * The neighbour a face tests. "top" reads z-1, the same cell as "bottom",
   * exactly as the source does.
   */
  function Probe(f: Face, x: int, y: int, z: int): Point {
    match f
    case Left => Point(x - 1, y, z)
    case Right => Point(x + 1, y, z)
    case NegY => Point(x, y - 1, z)
    case PosY => Point(x, y + 1, z)
    case Bottom => Point(x, y, z - 1)
    case Top => Point(x, y, z - 1)
  }

  /** The corners (in the source's order) and the normal passed to set_data. */
  function FaceQuad(f: Face, x: int, y: int, z: int): Quad {
    var (lx, hx) := (2 * x - 1, 2 * x + 1);
    var (ly, hy) := (2 * y - 1, 2 * y + 1);
    var (lz, hz) := (2 * z - 1, 2 * z + 1);
    match f
    case Left =>
      Quad(Point(lx, ly, lz), Point(lx, hy, lz), Point(lx, hy, hz), Point(lx, ly, hz), Point(1, 0, 0))
    case Right =>
      Quad(Point(hx, ly, lz), Point(hx, ly, hz), Point(hx, hy, hz), Point(hx, hy, lz), Point(-1, 0, 0))
    case NegY =>
      Quad(Point(lx, ly, lz), Point(lx, ly, hz), Point(hx, ly, hz), Point(hx, ly, lz), Point(0, 1, 0))
    case PosY =>
      Quad(Point(lx, hy, lz), Point(hx, hy, lz), Point(hx, hy, hz), Point(lx, hy, hz), Point(0, -1, 0))
    case Bottom =>
      Quad(Point(lx, ly, lz), Point(hx, ly, lz), Point(hx, hy, lz), Point(lx, hy, lz), Point(0, 0, 1))
    case Top =>
      Quad(Point(lx, ly, hz), Point(lx, hy, hz), Point(hx, hy, hz), Point(hx, ly, hz), Point(0, 0, -1))
  }

  /** The value a face's test reads. */
  function ProbeValue(b: Box, f: Face, x: int, y: int, z: int): int {
    var p := Probe(f, x, y, z);
    Get(b, p.x, p.y, p.z)
  }

  /** `if (value > 0) set_data(...)` for one face: zero or one quad. */
  function FaceQuads(b: Box, f: Face, x: int, y: int, z: int): seq<Quad> {
    if ProbeValue(b, f, x, y, z) > 0 then [FaceQuad(f, x, y, z)] else []
  }

  /** The quads the loop body emits for cell (x, y, z): its six blocks in order. */
  function CellQuads(b: Box, x: int, y: int, z: int): seq<Quad> {
    FaceQuads(b, Left, x, y, z) + FaceQuads(b, Right, x, y, z)
    + FaceQuads(b, NegY, x, y, z) + FaceQuads(b, PosY, x, y, z)
    + FaceQuads(b, Bottom, x, y, z) + FaceQuads(b, Top, x, y, z)
  }

  /** What the loop body emits for each cell (x, y, z). */
  type CellFn = (int, int, int) -> seq<Quad>

  /** The loop body of `tesselate` as a function of the cell; a map with an empty axis has no cells. */
  function Cells(v: Voxels): CellFn {
    (x: int, y: int, z: int) => if IsNonEmptyMap(v) then CellQuads(v, x, y, z) else []
  }

  /** Quads of cells 0 .. x-1 of row (y, z): the innermost loop after x iterations. */
  function RowQuads(cell: CellFn, z: int, y: int, x: nat): seq<Quad> {
    if x == 0 then [] else RowQuads(cell, z, y, x - 1) + cell(x - 1, y, z)
  }

  /** Quads of rows 0 .. y-1 of plane z: the middle loop after y iterations. */
  function PlaneQuads(cell: CellFn, xn: nat, z: int, y: nat): seq<Quad> {
    if y == 0 then [] else PlaneQuads(cell, xn, z, y - 1) + RowQuads(cell, z, y - 1, xn)
  }

  /** Quads of planes 0 .. z-1: the outer loop after z iterations. */
  function GridQuads(cell: CellFn, xn: nat, yn: nat, z: nat): seq<Quad> {
    if z == 0 then [] else GridQuads(cell, xn, yn, z - 1) + PlaneQuads(cell, xn, z - 1, yn)
  }

  /** Every quad `tesselate` emits for the map, in emission order. */
  function AllQuads(v: Voxels): seq<Quad> {
    GridQuads(Cells(v), v.xn, v.yn, v.zn)
  }

  /** `cell` gives the quads the loop body emits for cell (x, y, z) of the map. */
  predicate CellIs(cell: CellFn, b: Box, x: int, y: int, z: int) {
    cell(x, y, z) == CellQuads(b, x, y, z)
  }

  /**
   * A cell function for the map, known only by what it gives for each cell
   * of the box and by the loops' output over it.
   */
  lemma GridCells(v: Voxels) returns (cell: CellFn)
    ensures forall x, y, z :: 0 <= x < v.xn && 0 <= y < v.yn && 0 <= z < v.zn && IsReadable(v)
              ==> CellIs(cell, v, x, y, z)
    ensures GridQuads(cell, v.xn, v.yn, v.zn) == AllQuads(v)
  {
    cell := Cells(v);
  }

  // ---------------------------------------------------------------------
  // Buffer layouts
  // ---------------------------------------------------------------------

  /** The 12 position words set_data writes for a quad. */
  function PositionWords(q: Quad): seq<int> {
    [q.c0.x, q.c0.y, q.c0.z, q.c1.x, q.c1.y, q.c1.z,
     q.c2.x, q.c2.y, q.c2.z, q.c3.x, q.c3.y, q.c3.z]
  }

  /** The 12 normal words: the quad's normal once per corner. */
  function NormalWords(q: Quad): seq<int> {
    var n := q.normal;
    [n.x, n.y, n.z, n.x, n.y, n.z, n.x, n.y, n.z, n.x, n.y, n.z]
  }

  /** The 8 texture-coordinate words: the unit square (0,0) (1,0) (1,1) (0,1). */
  const TexWords: seq<int> := [0, 0, 1, 0, 1, 1, 0, 1]

  /** A value stored into a Uint16Array keeps its low 16 bits. */
  function U16(v: int): int {
    v % 0x1_0000
  }

  /** The two triangles of the quad whose first vertex is `start`. */
  function Triangles(start: int): seq<int> {
    [start, start + 1, start + 2, start, start + 2, start + 3]
  }

  /** The 6 index words written for the quad whose first vertex is `start`, as the Uint16 buffer holds them. */
  function IndexWords(start: int): seq<int> {
    [U16(start), U16(start + 1), U16(start + 2), U16(start), U16(start + 2), U16(start + 3)]
  }

  /** The position buffer for quads qs: word i is word i % 12 of quad i / 12. */
  function Positions(qs: seq<Quad>): seq<int> {
    seq(12 * |qs|, i requires 0 <= i < 12 * |qs| => PositionWords(qs[i / 12])[i % 12])
  }

  /** The normal buffer for quads qs. */
  function Normals(qs: seq<Quad>): seq<int> {
    seq(12 * |qs|, i requires 0 <= i < 12 * |qs| => NormalWords(qs[i / 12])[i % 12])
  }

  /** The texture-coordinate buffer for k quads. */
  function TexCoords(k: nat): seq<int> {
    seq(8 * k, i requires 0 <= i < 8 * k => TexWords[i % 8])
  }

  /** The index buffer for k quads: quad j's first vertex is 4j. */
  function Indices(k: nat): seq<int> {
    seq(6 * k, i requires 0 <= i < 6 * k => IndexWords(4 * (i / 6))[i % 6])
  }

  // ---------------------------------------------------------------------
  // Properties
  // ---------------------------------------------------------------------

  /**
   * Emitting one more quad appends its words to each buffer: the layouts are
   * what set_data's writes at advancing cursors build up. This gathers the
   * three per-buffer lemmas below, which the proofs about the writes call
   * one at a time.
   */
  lemma LayoutAppend(qs: seq<Quad>, q: Quad)
    ensures Positions(qs + [q]) == Positions(qs) + PositionWords(q)
    ensures Normals(qs + [q]) == Normals(qs) + NormalWords(q)
    ensures TexCoords(|qs| + 1) == TexCoords(|qs|) + TexWords
    ensures Indices(|qs| + 1) == Indices(|qs|) + IndexWords(4 * |qs|)
  {
    QuadWordsAppend(qs, q);
    TexCoordsAppend(|qs|);
    IndicesAppend(|qs|);
  }

  lemma QuadWordsAppend(qs: seq<Quad>, q: Quad)
    ensures Positions(qs + [q]) == Positions(qs) + PositionWords(q)
    ensures Normals(qs + [q]) == Normals(qs) + NormalWords(q)
  {
    var k := |qs|;
    forall i | 12 * k <= i < 12 * k + 12
      ensures i / 12 == k && i % 12 == i - 12 * k
    {
    }
    forall i | 0 <= i < 12 * k
      ensures i / 12 < k
    {
    }
  }

  lemma TexCoordsAppend(k: nat)
    ensures TexCoords(k + 1) == TexCoords(k) + TexWords
  {
    forall i | 8 * k <= i < 8 * k + 8
      ensures i % 8 == i - 8 * k
    {
    }
  }

  lemma IndicesAppend(k: nat)
    ensures Indices(k + 1) == Indices(k) + IndexWords(4 * k)
  {
    forall i | 6 * k <= i < 6 * k + 6
      ensures i / 6 == k && i % 6 == i - 6 * k
    {
    }
  }

  /** Quad k of a sequence sits at words 12k .. 12k+11 of the position and normal buffers. */
  lemma QuadSlots(qs: seq<Quad>, k: nat)
    requires k < |qs|
    ensures Positions(qs)[12 * k .. 12 * k + 12] == PositionWords(qs[k])
    ensures Normals(qs)[12 * k .. 12 * k + 12] == NormalWords(qs[k])
  {
    forall i | 12 * k <= i < 12 * k + 12
      ensures i / 12 == k && i % 12 == i - 12 * k
    {
    }
  }

  /**
   * The k-th quad's six index words are those of vertices 4k .. 4k+3, and every
   * stored index is a Uint16 naming one of the 4n vertices written so far.
   */
  lemma IndexPattern(n: nat)
    ensures forall k :: 0 <= k < n ==> Indices(n)[6 * k .. 6 * k + 6] == IndexWords(4 * k)
    ensures forall i :: 0 <= i < |Indices(n)| ==> 0 <= Indices(n)[i] < 4 * n && Indices(n)[i] < 0x1_0000
  {
    forall k | 0 <= k < n
      ensures Indices(n)[6 * k .. 6 * k + 6] == IndexWords(4 * k)
    {
      forall i | 6 * k <= i < 6 * k + 6
        ensures i / 6 == k && i % 6 == i - 6 * k
      {
      }
    }
    forall i | 0 <= i < |Indices(n)|
      ensures 0 <= Indices(n)[i] < 4 * n && Indices(n)[i] < 0x1_0000
    {
      IndexWordsBounds(4 * (i / 6));
    }
  }

  /**
   * While at most 16384 quads are emitted (65536 vertices) nothing wraps: quad
   * k's indices are exactly its two triangles over vertices 4k .. 4k+3.
   */
  lemma IndicesFitUint16(n: nat)
    requires 4 * n <= 0x1_0000
    ensures forall k :: 0 <= k < n ==> Indices(n)[6 * k .. 6 * k + 6] == Triangles(4 * k)
  {
    IndexPattern(n);
    forall k | 0 <= k < n ensures IndexWords(4 * k) == Triangles(4 * k) {
      NoWrap(4 * k);
    }
  }

  lemma NoWrap(start: int)
    requires 0 <= start && start + 3 < 0x1_0000
    ensures IndexWords(start) == Triangles(start)
  {
  }

  /** Quad 16384 is the first whose indices wrap: they name vertices 0 .. 3 again. */
  lemma IndicesWrapAt16384()
    ensures IndexWords(4 * 16384) == Triangles(0)
    ensures IndexWords(4 * 16383) == Triangles(4 * 16383)
  {
  }

  /** Every texture-coordinate group is the fixed unit square. */
  lemma TexCoordPattern(n: nat)
    ensures forall k :: 0 <= k < n ==> TexCoords(n)[8 * k .. 8 * k + 8] == TexWords
  {
    forall k | 0 <= k < n
      ensures TexCoords(n)[8 * k .. 8 * k + 8] == TexWords
    {
      forall i | 8 * k <= i < 8 * k + 8
        ensures i % 8 == i - 8 * k
      {
      }
    }
  }

  lemma IndexWordsBounds(start: nat)
    ensures forall i :: 0 <= i < 6 ==> 0 <= IndexWords(start)[i] <= start + 3 && IndexWords(start)[i] < 0x1_0000
  {
  }

  /** A unit axis direction: one coordinate is +1 or -1, the others 0. */
  predicate IsAxis(p: Point) {
    || (Dist(p.x, 0) == 1 && p.y == 0 && p.z == 0)
    || (p.x == 0 && Dist(p.y, 0) == 1 && p.z == 0)
    || (p.x == 0 && p.y == 0 && Dist(p.z, 0) == 1)
  }

  /**
   * Corner c lies within half a unit of the centre of cell (x, y, z) on every
   * axis (exactly 1 in doubled units), and on the axis of the normal it sits on
   * the side opposite the normal, so the normal points into the cell.
   */
  predicate OnCellFace(c: Point, normal: Point, x: int, y: int, z: int) {
    && Dist(c.x, 2 * x) == 1 && Dist(c.y, 2 * y) == 1 && Dist(c.z, 2 * z) == 1
    && (normal.x != 0 ==> c.x == 2 * x - normal.x)
    && (normal.y != 0 ==> c.y == 2 * y - normal.y)
    && (normal.z != 0 ==> c.z == 2 * z - normal.z)
  }

  /** The geometry of every emitted quad: an axis normal and four distinct corners on the cell's face. */
  lemma FaceQuadGeometry(f: Face, x: int, y: int, z: int)
    ensures var q := FaceQuad(f, x, y, z);
      && IsAxis(q.normal)
      && OnCellFace(q.c0, q.normal, x, y, z) && OnCellFace(q.c1, q.normal, x, y, z)
      && OnCellFace(q.c2, q.normal, x, y, z) && OnCellFace(q.c3, q.normal, x, y, z)
      && q.c0 != q.c1 && q.c0 != q.c2 && q.c0 != q.c3
      && q.c1 != q.c2 && q.c1 != q.c3 && q.c2 != q.c3
  {
  }

  /**
   * The emission rule: a cell's quad for face f is emitted exactly when the
   * clamped neighbour that face tests holds a value above 0; a cell emits at
   * most six quads.
   */
  lemma CellEmitsSolidProbes(b: Box, x: int, y: int, z: int, f: Face)
    ensures FaceQuad(f, x, y, z) in CellQuads(b, x, y, z)
            <==> ProbeValue(b, f, x, y, z) > 0
    ensures |CellQuads(b, x, y, z)| <= 6
  {
    FaceEmitsSolidProbe(b, Left, f, x, y, z);
    FaceEmitsSolidProbe(b, Right, f, x, y, z);
    FaceEmitsSolidProbe(b, NegY, f, x, y, z);
    FaceEmitsSolidProbe(b, PosY, f, x, y, z);
    FaceEmitsSolidProbe(b, Bottom, f, x, y, z);
    FaceEmitsSolidProbe(b, Top, f, x, y, z);
  }

  /**
   * "Top" probes z-1 just as "bottom" does, so a cell emits its top quad
   * exactly when it emits its bottom quad, and the same holds over the map.
   */
  lemma TopFollowsBottom(b: Box, x: int, y: int, z: int)
    ensures FaceQuad(Top, x, y, z) in CellQuads(b, x, y, z) <==> FaceQuad(Bottom, x, y, z) in CellQuads(b, x, y, z)
    ensures FaceEmitted(b, Top, x, y, z) <==> FaceEmitted(b, Bottom, x, y, z)
  {
    CellEmitsSolidProbes(b, x, y, z, Top);
    CellEmitsSolidProbes(b, x, y, z, Bottom);
  }

  /** Block g emits f's quad exactly when g is f and f's neighbour is solid; it emits at most one quad. */
  lemma FaceEmitsSolidProbe(b: Box, g: Face, f: Face, x: int, y: int, z: int)
    ensures FaceQuad(f, x, y, z) in FaceQuads(b, g, x, y, z)
            <==> g == f && ProbeValue(b, f, x, y, z) > 0
    ensures |FaceQuads(b, g, x, y, z)| <= 1
  {
    // distinct faces have distinct normals, hence distinct quads
    assert FaceQuad(g, x, y, z) == FaceQuad(f, x, y, z) ==> g == f;
  }

  /** Test f of cell (x, y, z), a cell of the map, succeeds: the loop body emits FaceQuad(f, x, y, z). */
  predicate FaceEmitted(v: Voxels, f: Face, x: int, y: int, z: int) {
    IsNonEmptyMap(v) && 0 <= x < v.xn && 0 <= y < v.yn && 0 <= z < v.zn && ProbeValue(v, f, x, y, z) > 0
  }

  /** A cell emits exactly the quads of its successful tests. */
  lemma CellMembers(b: Box, q: Quad, x: int, y: int, z: int)
    ensures q in CellQuads(b, x, y, z) <==> exists f :: ProbeValue(b, f, x, y, z) > 0 && q == FaceQuad(f, x, y, z)
  {
    if q in CellQuads(b, x, y, z) {
      var f :| f in [Left, Right, NegY, PosY, Bottom, Top] && q in FaceQuads(b, f, x, y, z);
      assert ProbeValue(b, f, x, y, z) > 0 && q == FaceQuad(f, x, y, z);
    }
    forall f | ProbeValue(b, f, x, y, z) > 0 ensures FaceQuad(f, x, y, z) in CellQuads(b, x, y, z) {
      CellEmitsSolidProbes(b, x, y, z, f);
    }
  }

  /** part(0) + part(1) + ... + part(n-1): the shape shared by the three loops. */
  function Layers(part: int -> seq<Quad>, n: nat): seq<Quad> {
    if n == 0 then [] else Layers(part, n - 1) + part(n - 1)
  }

  /** A concatenation holds exactly the quads of its parts. */
  lemma {:induction false} LayersMembers(part: int -> seq<Quad>, q: Quad, n: nat)
    ensures q in Layers(part, n) <==> exists k :: 0 <= k < n && q in part(k)
  {
    if n > 0 {
      LayersMembers(part, q, n - 1);
      assert q in Layers(part, n) <==> q in Layers(part, n - 1) || q in part(n - 1);
    }
  }

  /** The x loop concatenates the cells of the row ... */
  lemma {:induction false} RowLayers(cell: CellFn, z: int, y: int, x: nat)
    ensures RowQuads(cell, z, y, x) == Layers(i => cell(i, y, z), x)
  {
    if x > 0 {
      RowLayers(cell, z, y, x - 1);
    }
  }

  /** ... the y loop the rows of the plane ... */
  lemma {:induction false} PlaneLayers(cell: CellFn, xn: nat, z: int, y: nat)
    ensures PlaneQuads(cell, xn, z, y) == Layers(j => RowQuads(cell, z, j, xn), y)
  {
    if y > 0 {
      PlaneLayers(cell, xn, z, y - 1);
    }
  }

  /** ... and the z loop the planes of the grid. */
  lemma {:induction false} GridLayers(cell: CellFn, xn: nat, yn: nat, z: nat)
    ensures GridQuads(cell, xn, yn, z) == Layers(k => PlaneQuads(cell, xn, k, yn), z)
  {
    if z > 0 {
      GridLayers(cell, xn, yn, z - 1);
    }
  }

  /**
   * The whole-map emission rule: a quad is in `tesselate`'s output exactly
   * when it is the quad of face f of some cell (x, y, z) inside the extents
   * whose test for f reads a value above 0.
   */
  lemma AllQuadsMembers(v: Voxels, q: Quad)
    ensures q in AllQuads(v) <==> exists f, x, y, z :: FaceEmitted(v, f, x, y, z) && q == FaceQuad(f, x, y, z)
  {
    if q in AllQuads(v) {
      OutputIsEmitted(v, q);
    }
    forall f, x, y, z | FaceEmitted(v, f, x, y, z) && q == FaceQuad(f, x, y, z) ensures q in AllQuads(v) {
      EmittedIsOutput(v, f, x, y, z);
    }
  }

  /** Every quad of the output comes from a successful test of a cell of the map ... */
  lemma OutputIsEmitted(v: Voxels, q: Quad)
    requires q in AllQuads(v)
    ensures exists f, x, y, z :: FaceEmitted(v, f, x, y, z) && q == FaceQuad(f, x, y, z)
  {
    var cell := Cells(v);
    GridLayers(cell, v.xn, v.yn, v.zn);
    LayersMembers(k => PlaneQuads(cell, v.xn, k, v.yn), q, v.zn);
    var z :| 0 <= z < v.zn && q in PlaneQuads(cell, v.xn, z, v.yn);
    PlaneLayers(cell, v.xn, z, v.yn);
    LayersMembers(j => RowQuads(cell, z, j, v.xn), q, v.yn);
    var y :| 0 <= y < v.yn && q in RowQuads(cell, z, y, v.xn);
    RowLayers(cell, z, y, v.xn);
    LayersMembers(i => cell(i, y, z), q, v.xn);
    var x :| 0 <= x < v.xn && q in cell(x, y, z);
    CellMembers(v, q, x, y, z);
    var f :| ProbeValue(v, f, x, y, z) > 0 && q == FaceQuad(f, x, y, z);
    assert FaceEmitted(v, f, x, y, z);
  }

  /** ... and every successful test of a cell of the map puts its quad in the output. */
  lemma EmittedIsOutput(v: Voxels, f: Face, x: int, y: int, z: int)
    requires FaceEmitted(v, f, x, y, z)
    ensures FaceQuad(f, x, y, z) in AllQuads(v)
  {
    var cell, q := Cells(v), FaceQuad(f, x, y, z);
    CellMembers(v, q, x, y, z);
    assert q in cell(x, y, z);
    var cells := i => cell(i, y, z);
    RowLayers(cell, z, y, v.xn);
    LayersMembers(cells, q, v.xn);
    assert q in cells(x);
    assert q in RowQuads(cell, z, y, v.xn);
    var rows := j => RowQuads(cell, z, j, v.xn);
    PlaneLayers(cell, v.xn, z, v.yn);
    LayersMembers(rows, q, v.yn);
    assert q in rows(y);
    assert q in PlaneQuads(cell, v.xn, z, v.yn);
    var planes := k => PlaneQuads(cell, v.xn, k, v.yn);
    GridLayers(cell, v.xn, v.yn, v.zn);
    LayersMembers(planes, q, v.zn);
    assert q in planes(z);
  }

  /** A map with no solid cell emits no quad, so `tesselate` returns 0 for it. */
  lemma EmptyGridEmitsNothing(v: Voxels)
    requires IsReadable(v)
    requires forall z, y, x :: 0 <= z < v.zn && 0 <= y < v.yn && 0 <= x < v.xn ==> v.data[z][y][x] <= 0
    ensures AllQuads(v) == []
  {
    var cell := Cells(v);
    forall x, y, z ensures cell(x, y, z) == [] {
      if IsNonEmptyMap(v) {
        EmptyFace(v, Left, x, y, z);
        EmptyFace(v, Right, x, y, z);
        EmptyFace(v, NegY, x, y, z);
        EmptyFace(v, PosY, x, y, z);
        EmptyFace(v, Bottom, x, y, z);
        EmptyFace(v, Top, x, y, z);
      }
    }
    SilentCellsEmitNothing(cell, v.xn, v.yn, v.zn);
  }

  /** With no solid cell, no test succeeds: every clamped neighbour is a cell of the box. */
  lemma EmptyFace(b: Box, f: Face, x: int, y: int, z: int)
    requires forall z, y, x :: 0 <= z < b.zn && 0 <= y < b.yn && 0 <= x < b.xn ==> b.data[z][y][x] <= 0
    ensures FaceQuads(b, f, x, y, z) == []
  {
    var p := Probe(f, x, y, z);
    assert b.data[Clamp(p.z, b.zn)][Clamp(p.y, b.yn)][Clamp(p.x, b.xn)] <= 0;
  }

  /** If no cell emits anything, no loop level does. */
  lemma {:induction false} SilentCellsEmitNothing(cell: CellFn, xn: nat, yn: nat, z: nat)
    requires forall x, y, z :: cell(x, y, z) == []
    ensures GridQuads(cell, xn, yn, z) == []
  {
    if z > 0 {
      SilentCellsEmitNothing(cell, xn, yn, z - 1);
      SilentPlane(cell, xn, z - 1, yn);
    }
  }

  lemma {:induction false} SilentRow(cell: CellFn, z: int, y: int, x: nat)
    requires forall x, y, z :: cell(x, y, z) == []
    ensures RowQuads(cell, z, y, x) == []
  {
    if x > 0 {
      SilentRow(cell, z, y, x - 1);
    }
  }

  lemma {:induction false} SilentPlane(cell: CellFn, xn: nat, z: int, y: nat)
    requires forall x, y, z :: cell(x, y, z) == []
    ensures PlaneQuads(cell, xn, z, y) == []
  {
    if y > 0 {
      SilentPlane(cell, xn, z, y - 1);
      SilentRow(cell, z, y - 1, xn);
    }
  }

  /** Every cell of the map emits at most six quads. */
  lemma CellsAtMostSix(v: Voxels)
    ensures forall x, y, z :: |Cells(v)(x, y, z)| <= 6
  {
    forall x, y, z ensures |Cells(v)(x, y, z)| <= 6 {
      if IsNonEmptyMap(v) {
        CellEmitsSolidProbes(v, x, y, z, Left);
      }
    }
  }

  lemma MulStep(a: nat, k: nat)
    ensures a * (k + 1) == a * k + a
  {
  }

  /** At most six quads per cell, counted row by row ... */
  lemma {:induction false} RowBound(cell: CellFn, z: int, y: int, x: nat)
    requires forall x, y, z :: |cell(x, y, z)| <= 6
    ensures |RowQuads(cell, z, y, x)| <= 6 * x
  {
    if x > 0 {
      RowBound(cell, z, y, x - 1);
    }
  }

  /** ... plane by plane ... */
  lemma {:induction false} PlaneBound(cell: CellFn, xn: nat, z: int, y: nat)
    requires forall x, y, z :: |cell(x, y, z)| <= 6
    ensures |PlaneQuads(cell, xn, z, y)| <= (6 * xn) * y
  {
    if y > 0 {
      PlaneBound(cell, xn, z, y - 1);
      RowBound(cell, z, y - 1, xn);
      MulStep(6 * xn, y - 1);
    }
  }

  /** ... and grid prefix by grid prefix. */
  lemma {:induction false} GridBound(cell: CellFn, xn: nat, yn: nat, z: nat)
    requires forall x, y, z :: |cell(x, y, z)| <= 6
    ensures |GridQuads(cell, xn, yn, z)| <= (6 * xn * yn) * z
  {
    if z > 0 {
      GridBound(cell, xn, yn, z - 1);
      PlaneBound(cell, xn, z - 1, yn);
      MulStep(6 * xn * yn, z - 1);
    }
  }

  /** The whole map emits at most 6 zn yn xn quads. */
  lemma AllQuadsBound(v: Voxels)
    ensures |AllQuads(v)| <= 6 * (v.zn * v.yn * v.xn)
  {
    CellsAtMostSix(v);
    GridBound(Cells(v), v.xn, v.yn, v.zn);
    Reorder(v.xn, v.yn, v.zn);
  }

  lemma Reorder(a: nat, b: nat, c: nat)
    ensures 6 * a * b * c == 6 * (c * b * a)
  {
    assert a * b == b * a;
    assert (b * a) * c == c * (b * a);
    assert c * (b * a) == (c * b) * a;
  }

  /** The loop's output only grows: a shorter row prefix is a prefix of a longer one ... */
  lemma {:induction false} RowMonotone(cell: CellFn, z: int, y: int, x: nat, x': nat)
    requires x <= x'
    ensures |RowQuads(cell, z, y, x)| <= |RowQuads(cell, z, y, x')|
  {
    if x < x' {
      RowMonotone(cell, z, y, x, x' - 1);
    }
  }

  lemma {:induction false} PlaneMonotone(cell: CellFn, xn: nat, z: int, y: nat, y': nat)
    requires y <= y'
    ensures |PlaneQuads(cell, xn, z, y)| <= |PlaneQuads(cell, xn, z, y')|
  {
    if y < y' {
      PlaneMonotone(cell, xn, z, y, y' - 1);
    }
  }

  lemma {:induction false} GridMonotone(cell: CellFn, xn: nat, yn: nat, z: nat, z': nat)
    requires z <= z'
    ensures |GridQuads(cell, xn, yn, z)| <= |GridQuads(cell, xn, yn, z')|
  {
    if z < z' {
      GridMonotone(cell, xn, yn, z, z' - 1);
    }
  }
}

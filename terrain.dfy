/**
 * The mutable side of terrain.js: `tesselate` writing the four flat buffers
 * through its cursors, and `BlockTerrain.loadMap` sizing those buffers.
 * Each method is proved against the layouts of module TerrainMesh.
 */
module Terrain {
  import opened TerrainMesh

  /** The write cursors `tesselate` keeps in its closure; `indexInd` is its result. */
  datatype Cursors = Cursors(posInd: nat, normalsInd: nat, texInd: nat, indexInd: nat, startIndex: nat)

  /** The cursors after k quads: 12, 12, 8 and 6 words and 4 vertices per quad. */
  function CursorsAfter(k: nat): Cursors {
    Cursors(12 * k, 12 * k, 8 * k, 6 * k, 4 * k)
  }

  /** The contents of the four buffers. */
  datatype Snapshot = Snapshot(pos: seq<int>, normals: seq<int>, texcoord: seq<int>, indices: seq<int>)

  /** What the four buffers hold now. */
  ghost function Contents(pos: array<int>, normals: array<int>, texcoord: array<int>, indices: array<int>): Snapshot
    reads pos, normals, texcoord, indices
  {
    Snapshot(pos[..], normals[..], texcoord[..], indices[..])
  }

  /** The four buffers are four different arrays. */
  predicate Distinct(pos: array<int>, normals: array<int>, texcoord: array<int>, indices: array<int>) {
    |{pos, normals, texcoord, indices}| == 4
  }

  /** Buffers of these lengths have room for k quads. */
  ghost predicate Fits(s: Snapshot, k: nat) {
    12 * k <= |s.pos| && 12 * k <= |s.normals| && 8 * k <= |s.texcoord| && 6 * k <= |s.indices|
  }

  /** How many quads buffers of these lengths have room for: the most k with Fits(s, k). */
  ghost function Room(s: Snapshot): (r: nat)
    ensures Fits(s, r)
    ensures forall k: nat :: Fits(s, k) ==> k <= r
  {
    RoomFrom(s, 0)
  }

  ghost function RoomFrom(s: Snapshot, k: nat): (r: nat)
    requires Fits(s, k)
    ensures Fits(s, r)
    ensures forall j: nat :: Fits(s, j) ==> j <= r
    decreases |s.pos| - 12 * k
  {
    if Fits(s, k + 1) then RoomFrom(s, k + 1) else k
  }

  /** `a` with the words w written from index i on; a write past the end is not made. */
  function Overwrite(a: seq<int>, i: nat, w: seq<int>): (r: seq<int>)
    ensures |r| == |a|
  {
    if i + |w| <= |a| then a[..i] + w + a[i + |w|..] else a
  }

  /** One call of set_data for quad number k, which is q. */
  ghost function Put(s: Snapshot, k: nat, q: Quad): (r: Snapshot) {
    Snapshot(Overwrite(s.pos, 12 * k, PositionWords(q)), Overwrite(s.normals, 12 * k, NormalWords(q)),
             Overwrite(s.texcoord, 8 * k, TexWords), Overwrite(s.indices, 6 * k, IndexWords(4 * k)))
  }

  /** The buffers s0 after set_data has been called for each quad of `done` in turn. */
  ghost function Written(s0: Snapshot, done: seq<Quad>): (r: Snapshot)
    ensures |r.pos| == |s0.pos| && |r.normals| == |s0.normals|
    ensures |r.texcoord| == |s0.texcoord| && |r.indices| == |s0.indices|
    decreases |done|
  {
    if done == [] then s0
    else
      var k := |done| - 1;
      Put(Written(s0, done[..k]), k, done[k])
  }

  /** The four layouts of `done` at the front of the buffers s0, the rest of s0 untouched behind them. */
  ghost function Laid(s0: Snapshot, done: seq<Quad>): Snapshot
    requires Fits(s0, |done|)
  {
    var k := |done|;
    Snapshot(Positions(done) + s0.pos[12 * k..], Normals(done) + s0.normals[12 * k..],
             TexCoords(k) + s0.texcoord[8 * k..], Indices(k) + s0.indices[6 * k..])
  }

  /** After the quads `done`, the cursors are past them and the buffers hold what set_data wrote. */
  ghost predicate LaidOut(pos: array<int>, normals: array<int>, texcoord: array<int>, indices: array<int>,
                          c: Cursors, s0: Snapshot, done: seq<Quad>)
    reads pos, normals, texcoord, indices
  {
    (Contents(pos, normals, texcoord, indices), c) == (Written(s0, done), CursorsAfter(|done|))
  }

  /**
   * set_data: writes one quad's 12 position, 12 normal, 6 index and 8
   * texture-coordinate words at the cursors and advances them.
   */
  method SetData(q: Quad, pos: array<int>, normals: array<int>, texcoord: array<int>, indices: array<int>,
                 c: Cursors) returns (c': Cursors)
    requires Distinct(pos, normals, texcoord, indices)
    requires c.posInd + 12 <= pos.Length && c.normalsInd + 12 <= normals.Length
    requires c.texInd + 8 <= texcoord.Length && c.indexInd + 6 <= indices.Length
    modifies pos, normals, texcoord, indices
    ensures c' == Cursors(c.posInd + 12, c.normalsInd + 12, c.texInd + 8, c.indexInd + 6, c.startIndex + 4)
    ensures pos[..] == Overwrite(old(pos[..]), c.posInd, PositionWords(q))
    ensures normals[..] == Overwrite(old(normals[..]), c.normalsInd, NormalWords(q))
    ensures indices[..] == Overwrite(old(indices[..]), c.indexInd, IndexWords(c.startIndex))
    ensures texcoord[..] == Overwrite(old(texcoord[..]), c.texInd, TexWords)
  {
    WritePositions(q, pos, c.posInd);
    WriteNormals(q, normals, c.normalsInd);
    WriteIndices(indices, c.indexInd, c.startIndex);
    WriteTexCoords(texcoord, c.texInd);
    c' := Cursors(c.posInd + 12, c.normalsInd + 12, c.texInd + 8, c.indexInd + 6, c.startIndex + 4);
  }

  /** The first block of set_data: the four corners, three words each. */
  method WritePositions(q: Quad, pos: array<int>, p: nat)
    requires p + 12 <= pos.Length
    modifies pos
    ensures pos[..] == Overwrite(old(pos[..]), p, PositionWords(q))
  {
    pos[p] := q.c0.x; pos[p + 1] := q.c0.y; pos[p + 2] := q.c0.z;
    pos[p + 3] := q.c1.x; pos[p + 4] := q.c1.y; pos[p + 5] := q.c1.z;
    pos[p + 6] := q.c2.x; pos[p + 7] := q.c2.y; pos[p + 8] := q.c2.z;
    pos[p + 9] := q.c3.x; pos[p + 10] := q.c3.y; pos[p + 11] := q.c3.z;
    IsOverwrite(old(pos[..]), pos[..], p, PositionWords(q));
  }

  /** The second block: the normal once per corner. */
  method WriteNormals(q: Quad, normals: array<int>, m: nat)
    requires m + 12 <= normals.Length
    modifies normals
    ensures normals[..] == Overwrite(old(normals[..]), m, NormalWords(q))
  {
    var n := q.normal;
    normals[m] := n.x; normals[m + 1] := n.y; normals[m + 2] := n.z;
    normals[m + 3] := n.x; normals[m + 4] := n.y; normals[m + 5] := n.z;
    normals[m + 6] := n.x; normals[m + 7] := n.y; normals[m + 8] := n.z;
    normals[m + 9] := n.x; normals[m + 10] := n.y; normals[m + 11] := n.z;
    IsOverwrite(old(normals[..]), normals[..], m, NormalWords(q));
  }

  /** The third block: two triangles over vertices s .. s+3, stored as Uint16. */
  method WriteIndices(indices: array<int>, i: nat, s: nat)
    requires i + 6 <= indices.Length
    modifies indices
    ensures indices[..] == Overwrite(old(indices[..]), i, IndexWords(s))
  {
    indices[i] := U16(s); indices[i + 1] := U16(s + 1); indices[i + 2] := U16(s + 2);
    indices[i + 3] := U16(s); indices[i + 4] := U16(s + 2); indices[i + 5] := U16(s + 3);
    IsOverwrite(old(indices[..]), indices[..], i, IndexWords(s));
  }

  /** The last block: the unit square's corners. */
  method WriteTexCoords(texcoord: array<int>, t: nat)
    requires t + 8 <= texcoord.Length
    modifies texcoord
    ensures texcoord[..] == Overwrite(old(texcoord[..]), t, TexWords)
  {
    texcoord[t] := 0; texcoord[t + 1] := 0;
    texcoord[t + 2] := 1; texcoord[t + 3] := 0;
    texcoord[t + 4] := 1; texcoord[t + 5] := 1;
    texcoord[t + 6] := 0; texcoord[t + 7] := 1;
    IsOverwrite(old(texcoord[..]), texcoord[..], t, TexWords);
  }

  /** b is a with w written from index i on, word by word. */
  lemma IsOverwrite(a: seq<int>, b: seq<int>, i: nat, w: seq<int>)
    requires i + |w| <= |a| == |b|
    requires forall j :: 0 <= j < i ==> b[j] == a[j]
    requires forall j :: 0 <= j < |w| ==> b[i + j] == w[j]
    requires forall j :: i + |w| <= j < |a| ==> b[j] == a[j]
    ensures b == Overwrite(a, i, w)
  {
    var r := Overwrite(a, i, w);
    forall j | 0 <= j < |a| ensures b[j] == r[j] {
      if i <= j < i + |w| {
        assert b[i + (j - i)] == w[j - i];
      }
    }
  }

  /** Writing one more quad is one more set_data. */
  lemma WrittenStep(s0: Snapshot, done: seq<Quad>, q: Quad)
    ensures Written(s0, done + [q]) == Put(Written(s0, done), |done|, q)
  {
    assert (done + [q])[..|done|] == done;
  }

  /**
   * The calls of set_data for quads 0, 1, .. in turn lay the quads out
   * contiguously from the start of each buffer.
   */
  lemma WrittenLayout(s0: Snapshot, done: seq<Quad>)
    requires Fits(s0, |done|)
    ensures Written(s0, done) == Laid(s0, done)
  {
    PositionsWritten(s0, done);
    NormalsWritten(s0, done);
    TexCoordsWritten(s0, done);
    IndicesWritten(s0, done);
  }

  lemma {:induction false} PositionsWritten(s0: Snapshot, done: seq<Quad>)
    requires Fits(s0, |done|)
    ensures Written(s0, done).pos == Positions(done) + s0.pos[12 * |done|..]
    decreases |done|
  {
    if done == [] {
      assert Positions(done) == [];
    } else {
      var k := |done| - 1;
      var prev, q := done[..k], done[k];
      PositionsWritten(s0, prev);
      assert prev + [q] == done;
      QuadWordsAppend(prev, q);
      FrontStep(Written(s0, prev).pos, Positions(prev), PositionWords(q), s0.pos, 12 * k);
    }
  }

  lemma {:induction false} NormalsWritten(s0: Snapshot, done: seq<Quad>)
    requires Fits(s0, |done|)
    ensures Written(s0, done).normals == Normals(done) + s0.normals[12 * |done|..]
    decreases |done|
  {
    if done == [] {
      assert Normals(done) == [];
    } else {
      var k := |done| - 1;
      var prev, q := done[..k], done[k];
      NormalsWritten(s0, prev);
      assert prev + [q] == done;
      QuadWordsAppend(prev, q);
      FrontStep(Written(s0, prev).normals, Normals(prev), NormalWords(q), s0.normals, 12 * k);
    }
  }

  lemma {:induction false} TexCoordsWritten(s0: Snapshot, done: seq<Quad>)
    requires Fits(s0, |done|)
    ensures Written(s0, done).texcoord == TexCoords(|done|) + s0.texcoord[8 * |done|..]
    decreases |done|
  {
    if done == [] {
      assert TexCoords(0) == [];
    } else {
      var k := |done| - 1;
      TexCoordsWritten(s0, done[..k]);
      TexCoordsAppend(k);
      FrontStep(Written(s0, done[..k]).texcoord, TexCoords(k), TexWords, s0.texcoord, 8 * k);
    }
  }

  lemma {:induction false} IndicesWritten(s0: Snapshot, done: seq<Quad>)
    requires Fits(s0, |done|)
    ensures Written(s0, done).indices == Indices(|done|) + s0.indices[6 * |done|..]
    decreases |done|
  {
    if done == [] {
      assert Indices(0) == [];
    } else {
      var k := |done| - 1;
      IndicesWritten(s0, done[..k]);
      IndicesAppend(k);
      FrontStep(Written(s0, done[..k]).indices, Indices(k), IndexWords(4 * k), s0.indices, 6 * k);
    }
  }

  /** A buffer holding `front` and then a's words from i on, with w written at i. */
  lemma FrontStep(b: seq<int>, front: seq<int>, w: seq<int>, a: seq<int>, i: nat)
    requires |front| == i && i + |w| <= |a| && b == front + a[i..]
    ensures Overwrite(b, i, w) == front + w + a[i + |w|..]
  {
    assert b[..i] == front;
    assert b[i + |w|..] == a[i + |w|..];
  }

  /**
   * One of the six blocks of the loop body: read the neighbour the face tests
   * and, when it holds a value above 0, emit the face's quad.
   */
  method EmitFace(b: Box, f: Face, x: int, y: int, z: int,
                  pos: array<int>, normals: array<int>, texcoord: array<int>, indices: array<int>,
                  c: Cursors, ghost s0: Snapshot, ghost done: seq<Quad>) returns (c': Cursors)
    requires Distinct(pos, normals, texcoord, indices)
    requires LaidOut(pos, normals, texcoord, indices, c, s0, done)
    requires |done| + |FaceQuads(b, f, x, y, z)| <= Room(s0)
    modifies pos, normals, texcoord, indices
    ensures LaidOut(pos, normals, texcoord, indices, c', s0, done + FaceQuads(b, f, x, y, z))
  {
    var p := Probe(f, x, y, z);
    var value := Get(b, p.x, p.y, p.z);
    assert value == ProbeValue(b, f, x, y, z);
    if value > 0 {
      var q := FaceQuad(f, x, y, z);
      WrittenStep(s0, done, q);
      c' := SetData(q, pos, normals, texcoord, indices, c);
      assert FaceQuads(b, f, x, y, z) == [q];
    } else {
      c' := c;
      assert done + FaceQuads(b, f, x, y, z) == done;
    }
  }

  /** The body of the x loop: the six face blocks for cell (x, y, z). */
  method EmitCell(b: Box, x: int, y: int, z: int,
                  pos: array<int>, normals: array<int>, texcoord: array<int>, indices: array<int>,
                  c: Cursors, ghost s0: Snapshot, ghost done: seq<Quad>, ghost cell: CellFn) returns (c': Cursors)
    requires CellIs(cell, b, x, y, z)
    requires Distinct(pos, normals, texcoord, indices)
    requires LaidOut(pos, normals, texcoord, indices, c, s0, done)
    requires |done| + |cell(x, y, z)| <= Room(s0)
    modifies pos, normals, texcoord, indices
    ensures LaidOut(pos, normals, texcoord, indices, c', s0, done + cell(x, y, z))
  {
    ghost var d := done;
    c' := EmitFace(b, Left, x, y, z, pos, normals, texcoord, indices, c, s0, d);
    d := d + FaceQuads(b, Left, x, y, z);
    c' := EmitFace(b, Right, x, y, z, pos, normals, texcoord, indices, c', s0, d);
    d := d + FaceQuads(b, Right, x, y, z);
    c' := EmitFace(b, NegY, x, y, z, pos, normals, texcoord, indices, c', s0, d);
    d := d + FaceQuads(b, NegY, x, y, z);
    c' := EmitFace(b, PosY, x, y, z, pos, normals, texcoord, indices, c', s0, d);
    d := d + FaceQuads(b, PosY, x, y, z);
    c' := EmitFace(b, Bottom, x, y, z, pos, normals, texcoord, indices, c', s0, d);
    d := d + FaceQuads(b, Bottom, x, y, z);
    c' := EmitFace(b, Top, x, y, z, pos, normals, texcoord, indices, c', s0, d);
    ghost var l, r, ny, py := FaceQuads(b, Left, x, y, z), FaceQuads(b, Right, x, y, z),
      FaceQuads(b, NegY, x, y, z), FaceQuads(b, PosY, x, y, z);
    Append(done, l, r);
    Append(done, l + r, ny);
    Append(done, l + r + ny, py);
    Append(done, l + r + ny + py, FaceQuads(b, Bottom, x, y, z));
    Append(done, l + r + ny + py + FaceQuads(b, Bottom, x, y, z), FaceQuads(b, Top, x, y, z));
  }

  /** The x loop of `tesselate`: the cells of row (y, z) in increasing x. */
  method EmitRow(v: Voxels, y: int, z: int,
                 pos: array<int>, normals: array<int>, texcoord: array<int>, indices: array<int>,
                 c: Cursors, ghost s0: Snapshot, ghost done: seq<Quad>, ghost cell: CellFn) returns (c': Cursors)
    requires IsReadable(v) && 0 <= y < v.yn && 0 <= z < v.zn
    requires forall x :: 0 <= x < v.xn ==> CellIs(cell, v, x, y, z)
    requires Distinct(pos, normals, texcoord, indices)
    requires LaidOut(pos, normals, texcoord, indices, c, s0, done)
    requires |done| + |RowQuads(cell, z, y, v.xn)| <= Room(s0)
    modifies pos, normals, texcoord, indices
    ensures LaidOut(pos, normals, texcoord, indices, c', s0, done + RowQuads(cell, z, y, v.xn))
  {
    ghost var d := done;
    c' := c;
    var x := 0;
    while x < v.xn
      invariant 0 <= x <= v.xn
      invariant d == done + RowQuads(cell, z, y, x)
      invariant LaidOut(pos, normals, texcoord, indices, c', s0, d)
    {
      RowMonotone(cell, z, y, x + 1, v.xn);
      c' := EmitCell(v, x, y, z, pos, normals, texcoord, indices, c', s0, d, cell);
      Append(done, RowQuads(cell, z, y, x), cell(x, y, z));
      d := d + cell(x, y, z);
      x := x + 1;
    }
  }

  /** The y loop of `tesselate`: the rows of plane z in increasing y. */
  method EmitPlane(v: Voxels, z: int,
                   pos: array<int>, normals: array<int>, texcoord: array<int>, indices: array<int>,
                   c: Cursors, ghost s0: Snapshot, ghost done: seq<Quad>, ghost cell: CellFn) returns (c': Cursors)
    requires IsReadable(v) && 0 <= z < v.zn
    requires forall x, y :: 0 <= x < v.xn && 0 <= y < v.yn ==> CellIs(cell, v, x, y, z)
    requires Distinct(pos, normals, texcoord, indices)
    requires LaidOut(pos, normals, texcoord, indices, c, s0, done)
    requires |done| + |PlaneQuads(cell, v.xn, z, v.yn)| <= Room(s0)
    modifies pos, normals, texcoord, indices
    ensures LaidOut(pos, normals, texcoord, indices, c', s0, done + PlaneQuads(cell, v.xn, z, v.yn))
  {
    ghost var d := done;
    c' := c;
    var y := 0;
    while y < v.yn
      invariant 0 <= y <= v.yn
      invariant d == done + PlaneQuads(cell, v.xn, z, y)
      invariant LaidOut(pos, normals, texcoord, indices, c', s0, d)
    {
      PlaneMonotone(cell, v.xn, z, y + 1, v.yn);
      c' := EmitRow(v, y, z, pos, normals, texcoord, indices, c', s0, d, cell);
      Append(done, PlaneQuads(cell, v.xn, z, y), RowQuads(cell, z, y, v.xn));
      d := d + RowQuads(cell, z, y, v.xn);
      y := y + 1;
    }
  }

  /**
   * tesselate: visits every cell z-major, then y, then x, emits the quads of
   * its solid neighbours and returns the number of index words written. The
   * buffers must have room for everything the map emits; behind what was
   * written they keep their old contents.
   */
  method Tesselate(data: Grid, xn: nat, yn: nat, zn: nat,
                   pos: array<int>, texcoord: array<int>, indices: array<int>, normals: array<int>)
    returns (count: nat)
    requires IsReadable(Voxels(data, xn, yn, zn))
    requires Distinct(pos, normals, texcoord, indices)
    requires var k := |AllQuads(Voxels(data, xn, yn, zn))|;
      12 * k <= pos.Length && 12 * k <= normals.Length && 8 * k <= texcoord.Length && 6 * k <= indices.Length
    modifies pos, normals, texcoord, indices
    ensures count == 6 * |AllQuads(Voxels(data, xn, yn, zn))|
    ensures var qs := AllQuads(Voxels(data, xn, yn, zn)); var k := |qs|;
      && pos[..] == Positions(qs) + old(pos[..])[12 * k..]
      && normals[..] == Normals(qs) + old(normals[..])[12 * k..]
      && texcoord[..] == TexCoords(k) + old(texcoord[..])[8 * k..]
      && indices[..] == Indices(k) + old(indices[..])[6 * k..]
  {
    var v := Voxels(data, xn, yn, zn);
    ghost var s0 := Contents(pos, normals, texcoord, indices);
    ghost var cell := GridCells(v);
    assert Fits(s0, |GridQuads(cell, xn, yn, zn)|);
    ghost var done: seq<Quad> := [];
    var c := CursorsAfter(0);
    var z := 0;
    while z < zn
      invariant 0 <= z <= zn
      invariant done == GridQuads(cell, xn, yn, z)
      invariant LaidOut(pos, normals, texcoord, indices, c, s0, done)
    {
      GridMonotone(cell, xn, yn, z + 1, zn);
      c := EmitPlane(v, z, pos, normals, texcoord, indices, c, s0, done, cell);
      done := done + PlaneQuads(cell, xn, z, yn);
      z := z + 1;
    }
    WrittenLayout(s0, done);
    count := c.indexInd;
  }

  lemma Append(a: seq<Quad>, b: seq<Quad>, c: seq<Quad>)
    ensures a + b + c == a + (b + c)
  {
  }

  // ---------------------------------------------------------------------
  // BlockTerrain.loadMap
  // ---------------------------------------------------------------------

  /** The lengths of the four buffers, in words. */
  datatype Sizes = Sizes(pos: nat, normals: nat, texcoord: nat, indices: nat)

  /** Buffers of these sizes have room for k quads. */
  predicate Holds(s: Sizes, k: nat) {
    12 * k <= s.pos && 12 * k <= s.normals && 8 * k <= s.texcoord && 6 * k <= s.indices
  }

  /**
   * The sizes loadMap allocates, as written: 6 sides and 4 vertices per
   * cube, 3 position and 3 normal words and 2 texture words per vertex, and
   * ONE index word per vertex.
   */
  function AllocationAsWritten(xn: nat, yn: nat, zn: nat): (r: Sizes)
    ensures r.indices == 24 * (zn * yn * xn)
  {
    var vertPerCube := zn * yn * xn * 6 * 4;
    Sizes(vertPerCube * 3, vertPerCube * 3, vertPerCube * 2, vertPerCube)
  }

  /** The sizes loadMap needs: as written, but 6 index words (two triangles) per side. */
  function Allocation(xn: nat, yn: nat, zn: nat): (r: Sizes)
    ensures r.indices == 36 * (zn * yn * xn)
    ensures r.pos == AllocationAsWritten(xn, yn, zn).pos
    ensures r.normals == AllocationAsWritten(xn, yn, zn).normals
    ensures r.texcoord == AllocationAsWritten(xn, yn, zn).texcoord
  {
    var cells := zn * yn * xn;
    Sizes(72 * cells, 72 * cells, 48 * cells, 36 * cells)
  }

  /** The corrected allocation has room for every quad of every map. */
  lemma AllocationFits(v: Voxels)
    ensures Holds(Allocation(v.xn, v.yn, v.zn), |AllQuads(v)|)
  {
    var cells, k := v.zn * v.yn * v.xn, |AllQuads(v)|;
    AllQuadsBound(v);
    assert k <= 6 * cells;
    assert Allocation(v.xn, v.yn, v.zn) == Sizes(72 * cells, 72 * cells, 48 * cells, 36 * cells);
  }

  /** The quads of the single solid cell: all six faces, since each clamped probe reads the cell itself. */
  lemma SingleCellQuads()
    ensures |AllQuads(Voxels([[[1]]], 1, 1, 1))| == 6
  {
    var v := Voxels([[[1]]], 1, 1, 1);
    var cell := Cells(v);
    assert IsNonEmptyMap(v);
    forall f: Face ensures |FaceQuads(v, f, 0, 0, 0)| == 1 {
      var p := Probe(f, 0, 0, 0);
      assert Get(v, p.x, p.y, p.z) == 1;
    }
    assert |cell(0, 0, 0)| == 6;
    assert RowQuads(cell, 0, 0, 1) == RowQuads(cell, 0, 0, 0) + cell(0, 0, 0);
    assert PlaneQuads(cell, 1, 0, 1) == PlaneQuads(cell, 1, 0, 0) + RowQuads(cell, 0, 0, 1);
    assert GridQuads(cell, 1, 1, 1) == GridQuads(cell, 1, 1, 0) + PlaneQuads(cell, 1, 0, 1);
  }

  /**
   * The allocation as written is too small for the index buffer: a single
   * solid cell emits 6 quads, 36 index words, into a buffer of 24.
   */
  lemma AllocationAsWrittenTooSmall()
    ensures var v := Voxels([[[1]]], 1, 1, 1);
      && !Holds(AllocationAsWritten(v.xn, v.yn, v.zn), |AllQuads(v)|)
      && Holds(Allocation(v.xn, v.yn, v.zn), |AllQuads(v)|)
  {
    SingleCellQuads();
  }

  /** Only the index buffer is short: the other three as written have room for every map. */
  lemma AllocationAsWrittenOtherBuffers(v: Voxels)
    ensures var s, k := AllocationAsWritten(v.xn, v.yn, v.zn), |AllQuads(v)|;
      12 * k <= s.pos && 12 * k <= s.normals && 8 * k <= s.texcoord
  {
    AllocationFits(v);
  }

  /** Buffer a holds `front` and zeros behind it, as a zeroed typed array after front was written. */
  predicate FrontThenZeros(a: seq<int>, front: seq<int>) {
    && front <= a
    && forall i :: |front| <= i < |a| ==> a[i] == 0
  }

  /** A zeroed buffer with its first |front| words replaced by front. */
  lemma ZeroTail(a: seq<int>, front: seq<int>, n: nat)
    requires |front| <= n
    requires a == front + seq(n, _ => 0)[|front|..]
    ensures FrontThenZeros(a, front)
  {
    assert a[..|front|] == front;
  }

  /**
   * The body of loadMap for a non-empty map: allocate four zeroed buffers
   * and fill them with `tesselate`.
   */
  method BuildMesh(data: Grid, xn: nat, yn: nat, zn: nat)
    returns (verts: array<int>, normals: array<int>, texCoords: array<int>, indices: array<int>, count: nat)
    requires IsReadable(Voxels(data, xn, yn, zn))
    ensures fresh(verts) && fresh(normals) && fresh(texCoords) && fresh(indices)
    ensures var qs := AllQuads(Voxels(data, xn, yn, zn)); var k := |qs|;
      && Sizes(verts.Length, normals.Length, texCoords.Length, indices.Length) == Allocation(xn, yn, zn)
      && FrontThenZeros(verts[..], Positions(qs))
      && FrontThenZeros(normals[..], Normals(qs))
      && FrontThenZeros(texCoords[..], TexCoords(k))
      && FrontThenZeros(indices[..], Indices(k))
      && count == 6 * k
  {
    var size := Allocation(xn, yn, zn);
    verts := new int[size.pos](_ => 0);
    normals := new int[size.normals](_ => 0);
    texCoords := new int[size.texcoord](_ => 0);
    indices := new int[size.indices](_ => 0);
    ghost var qs := AllQuads(Voxels(data, xn, yn, zn));
    AllocationFits(Voxels(data, xn, yn, zn));
    count := Tesselate(data, xn, yn, zn, verts, texCoords, indices, normals);
    ZeroTail(verts[..], Positions(qs), size.pos);
    ZeroTail(normals[..], Normals(qs), size.normals);
    ZeroTail(texCoords[..], TexCoords(|qs|), size.texcoord);
    ZeroTail(indices[..], Indices(|qs|), size.indices);
  }

  /**
   * A BlockTerrain: the extents of the map it was last loaded with and the
   * mesh built for it: the four buffers and `numElements`, the index count
   * BlockTerrain keeps. The VBO object itself is not modelled.
   */
  class BlockTerrain {
    var texture: int
    var xn: nat
    var yn: nat
    var zn: nat
    var verts: array<int>
    var normals: array<int>
    var texCoords: array<int>
    var indices: array<int>
    var numElements: nat

    /** `new BlockTerrain(texture)`: no map loaded yet, so no mesh. */
    constructor(texture: int)
      ensures this.texture == texture
      ensures xn == 0 && yn == 0 && zn == 0 && numElements == 0
      ensures verts.Length == 0 && normals.Length == 0 && texCoords.Length == 0 && indices.Length == 0
    {
      this.texture := texture;
      xn, yn, zn := 0, 0, 0;
      verts := new int[0];
      normals := new int[0];
      texCoords := new int[0];
      indices := new int[0];
      numElements := 0;
    }

    /**
     * loadMap: an empty map (no planes, no rows or no columns, as the first
     * plane and row show) changes nothing. Otherwise the extents are taken
     * from the first plane and row, four zeroed buffers are allocated and
     * filled by `tesselate`, and its count is kept.
     */
    method LoadMap(data: Grid)
      requires |data| > 0 && |data[0]| > 0 && |data[0][0]| > 0
               ==> IsReadable(Voxels(data, |data[0][0]|, |data[0]|, |data|))
      modifies this
      ensures |data| == 0 || |data[0]| == 0 || |data[0][0]| == 0 ==> unchanged(this)
      ensures |data| > 0 && |data[0]| > 0 && |data[0][0]| > 0 ==>
        var qs := AllQuads(Voxels(data, xn, yn, zn)); var k := |qs|;
        && (zn, yn, xn) == (|data|, |data[0]|, |data[0][0]|)
        && Sizes(verts.Length, normals.Length, texCoords.Length, indices.Length) == Allocation(xn, yn, zn)
        && FrontThenZeros(verts[..], Positions(qs))
        && FrontThenZeros(normals[..], Normals(qs))
        && FrontThenZeros(texCoords[..], TexCoords(k))
        && FrontThenZeros(indices[..], Indices(k))
        && numElements == 6 * k
      ensures texture == old(texture)
    {
      var zn' := |data|;
      if zn' != 0 {
        var yn' := |data[0]|;
        if yn' != 0 {
          var xn' := |data[0][0]|;
          if xn' != 0 {
            xn, yn, zn := xn', yn', zn';
            var v, n, t, i, count := BuildMesh(data, xn', yn', zn');
            numElements := count;
            verts, normals, texCoords, indices := v, n, t, i;
          }
        }
      }
    }
  }
}

# Block terrain mesher and scene graph, modelled in Dafny

This project models two pieces of a small WebGL voxel demo.

**The voxel tesselator (terrain.js).** `tesselate` walks a `[z][y][x]` map
of block values in z, y, x order. Each cell makes six tests: left, right,
y-1, y+1, bottom and top. A test reads a neighbour through `clamp`, so an
out-of-range neighbour reads the edge cell. When the value it reads is above
0, `set_data` writes one quad. A quad is:

- 12 position words;
- 12 normal words;
- 6 index words;
- 8 texture words.

Each buffer is written through its own running cursor, and `startIndex`
advances by 4 per quad. `BlockTerrain.loadMap` returns early on an empty
extent. Otherwise it records the extents, allocates the four buffers and
calls `tesselate`.

- Module `TerrainMesh` states the tesselator's output as values. It holds
  the clamped lookup, the quad of each face, the sequence of quads the three
  nested loops emit, and the flat layout of each buffer.
- Module `Terrain` writes that output into `array`s with the cursors, as
  the source does. Its methods are proved to leave exactly those layouts in
  the buffers.

Positions are stored doubled (2x-1 and 2x+1 instead of x-0.5 and x+0.5), so
every coordinate is an integer. Index values go through `U16`, the low 16
bits, because the index buffer is a `Uint16Array`.

The source's behaviour is kept even where the design intent seems to
differ:

- a face is emitted when the neighbour it tests is solid;
- normals point into the cell;
- the "top" test reads `z-1`, the same neighbour as "bottom".

**Scene-graph dirty tracking (scene.js).** Every `SceneNode` has a
`needs_update` flag, and one global `SceneNode.queue` exists.

- `markForUpdate` returns at once on a dirty node. Otherwise it sets the
  flag, pushes the node and recurses into the children.
- `Scene.update` runs `SceneNode.update` on each queued node in order, then
  empties the queue.
- `SceneNode.update` throws when the parent still needs an update.
  Otherwise it rebuilds the node's relative and absolute transforms.

Module `SceneTree` states all of this as functions over a node arena
(`World`: the nodes, their flags and the queue). Nodes refer to each other
by index. Transforms are symbolic terms (`Local`, `Compose`).

Module `SceneGraph` holds two classes, and each of their methods is proved
to produce the state those functions describe:

- `NodeArena`: all nodes plus the static queue;
- `Scene`: the root.

The main results:

- **Settled is invariant.** The state between two updates is *settled*:
  - parent links and child lists agree;
  - the queue holds exactly the dirty nodes, each once;
  - a dirty node's children are dirty;
  - every clean node is up to date.

  Every setter, node creation and controller mark keeps this state. So does
  attaching a dirty child that has no parent. A `Scene.update` that finishes leaves every node
  clean and up to date.
- **Parents first, within one call.** The comment in `SceneNode.update`
  claims that parents are always queued before their children. Inside one
  `markForUpdate` call this holds: every node queued after the first is a
  child of a node queued earlier in that call.
- **Not across calls.** Mark a child, then its clean parent. The queue is
  `[child, parent]` and the state is settled, yet `Scene.update` throws at
  the child (`SceneTree.ChildFirstThrows`). Conversely, if every queued
  node's dirty parent is queued before it, the update never throws.
- **attachObject does not mark the child.** Attaching a clean node that has
  no parent sets its parent, appends it to the parent's children, and
  changes nothing else about the child: not its transforms, not its flag,
  not the queue. An update never touches a node that is not
  queued, so the child's absolute transform is not recomputed against its
  new parent until something marks it.
- **A root's update is modelled as intended.** The matrix library's `set`
  copies its first argument into its second, as the setters' own
  `vec3.set(vec, this.position)` calls show. Read that way, a root's
  update overwrites its new relative transform with its old absolute one,
  and its absolute transform never changes (`SceneTree.UpdateOneAsWritten`).
  The rest of the model copies the relative transform into the absolute
  one (see Findings).
- **Render order.** `renderNode` visits a node first, then its children in
  list order. Every visited node after the first is a child of an earlier
  one, and every child of a visited node is visited.

## Model

| member | source | states |
|---|---|---|
| TerrainMesh.Clamp | terrain.js:46-54 | below 0 gives 0; at or above size gives size-1; otherwise n itself; for size >= 1 the result is a valid coordinate |
| TerrainMesh.ClampIsNearest | terrain.js:46-54 | for a non-empty axis, the clamped coordinate is the valid coordinate nearest to n |
| TerrainMesh.Get | terrain.js:106-108 | a read inside the extents returns the value stored at that cell; a read outside them goes through clamp on each axis |
| TerrainMesh.FaceQuad | terrain.js:177-234 | (definition) the four corners, in the source's order, and the normal that each of the six blocks passes to set_data |
| TerrainMesh.FaceQuads | terrain.js:177-234 | (definition) one block of the loop body: the face's quad when the neighbour it reads is above 0, otherwise nothing |
| TerrainMesh.CellQuads | terrain.js:177-234 | (definition) the loop body: the six blocks' quads in the order left, right, y-1, y+1, bottom, top |
| TerrainMesh.AllQuads | terrain.js:173-239 | (definition) every quad the three loops emit, cells in z, then y, then x order |
| TerrainMesh.CellMembers | terrain.js:177-234 | a cell emits exactly the quads of the faces whose clamped neighbour is above 0 |
| TerrainMesh.LayersMembers | terrain.js:173-239 | a concatenation of parts holds exactly the quads of its parts |
| TerrainMesh.RowLayers | terrain.js:175-237 | the x loop's output is the concatenation of the row's cells in x order |
| TerrainMesh.PlaneLayers | terrain.js:174-238 | the y loop's output is the concatenation of the plane's rows in y order |
| TerrainMesh.GridLayers | terrain.js:173-239 | the z loop's output is the concatenation of the planes in z order |
| TerrainMesh.AllQuadsMembers | terrain.js:173-239 | a quad is in the output exactly when it is face f's quad of some cell inside the extents whose test for f reads a value above 0 |
| TerrainMesh.OutputIsEmitted | terrain.js:173-239 | every quad in the output is face f's quad of a cell inside the extents whose test for f succeeds |
| TerrainMesh.EmittedIsOutput | terrain.js:173-239 | every successful test of a cell inside the extents puts its face's quad in the output |
| TerrainMesh.LayoutAppend | terrain.js:116-168 | emitting one more quad appends its 12 position words, 12 normal words, the 8 fixed texture words, and the 6 index words of vertex 4k to the buffers |
| TerrainMesh.QuadSlots | terrain.js:116-146 | quad k occupies words 12k..12k+11 of the position and normal buffers |
| TerrainMesh.IndexPattern | terrain.js:148-156 | quad k's six index words are those of vertices 4k..4k+3; every stored index is below 65536 and names a vertex already written |
| TerrainMesh.IndicesFitUint16 | terrain.js:148-156 | while at most 16384 quads are written, quad k's indices are exactly 4k, 4k+1, 4k+2, 4k, 4k+2, 4k+3 |
| TerrainMesh.NoWrap | terrain.js:148-154 | below 65536, the Uint16 store keeps the two triangles unchanged |
| TerrainMesh.IndicesWrapAt16384 | terrain.js:148-156 | quad 16384 is the first whose indices wrap, back to vertices 0..3 |
| TerrainMesh.IndexWordsBounds | terrain.js:148-154 | each index word of a quad starting at vertex s lies in 0..s+3 and below 65536 |
| TerrainMesh.TexCoordPattern | terrain.js:158-168 | every texture group is the unit square (0,0) (1,0) (1,1) (0,1) |
| TerrainMesh.FaceQuadGeometry | terrain.js:177-234 | each quad has an axis normal and four distinct corners, each half a unit from the cell centre on every axis, on the face opposite the normal |
| TerrainMesh.FaceEmitsSolidProbe | terrain.js:177-234 | test g emits face f's quad exactly when g is f and f's clamped neighbour is above 0; each test emits at most one quad |
| TerrainMesh.CellEmitsSolidProbes | terrain.js:177-234 | a cell emits face f's quad exactly when f's clamped neighbour is above 0; a cell emits at most six quads |
| TerrainMesh.TopFollowsBottom | terrain.js:216-234 | because "top" reads z-1 like "bottom", the two faces are emitted together or not at all |
| TerrainMesh.EmptyGridEmitsNothing | terrain.js:173-241 | a map with no value above 0 emits no quad, so tesselate returns 0 |
| TerrainMesh.CellsAtMostSix | terrain.js:177-234 | the loop body emits at most six quads for any cell |
| TerrainMesh.AllQuadsBound | terrain.js:173-239 | the whole map emits at most 6 zn yn xn quads |
| Terrain.SetData | terrain.js:110-171 | advances the cursors by 12, 12, 8 and 6 and startIndex by 4; each buffer changes only in its slot, which receives the quad's words |
| Terrain.WritePositions | terrain.js:116-130 | the position buffer changes only in words p..p+11, which receive the four corners |
| Terrain.WriteNormals | terrain.js:132-146 | the normal buffer changes only in words m..m+11, which receive the normal four times |
| Terrain.WriteIndices | terrain.js:148-154 | the index buffer changes only in words i..i+5, which receive the two triangles of vertex s, as Uint16 values |
| Terrain.WriteTexCoords | terrain.js:158-168 | the texture buffer changes only in words t..t+7, which receive the unit square |
| Terrain.WrittenLayout | terrain.js:116-168 | successive set_data writes at advancing cursors leave each buffer's flat layout, followed by the untouched tail |
| Terrain.PositionsWritten | terrain.js:116-130 | after k quads, the position buffer is the quads' position layout followed by the old words from 12k on |
| Terrain.NormalsWritten | terrain.js:132-146 | after k quads, the normal buffer is the normal layout followed by the old words from 12k on |
| Terrain.TexCoordsWritten | terrain.js:158-168 | after k quads, the texture buffer is the texture layout followed by the old words from 8k on |
| Terrain.IndicesWritten | terrain.js:148-156 | after k quads, the index buffer is the index layout followed by the old words from 6k on |
| Terrain.EmitFace | terrain.js:177-185 | one test appends its zero or one quad to the buffers and advances the cursors to match |
| Terrain.EmitCell | terrain.js:177-234 | the loop body appends the cell's quads, in the order of its six tests |
| Terrain.EmitRow | terrain.js:175-237 | the x loop appends the quads of a row's cells in x order |
| Terrain.EmitPlane | terrain.js:174-238 | the y loop appends the quads of a plane's rows in y order |
| Terrain.Tesselate | terrain.js:89-242 | returns 6 times the number of emitted quads; each buffer holds the layout of all quads followed by its untouched tail |
| Terrain.AllocationAsWritten | terrain.js:31-39 | the as-written allocation gives the index buffer 24 words per cell |
| Terrain.Allocation | terrain.js:31-39 | the corrected allocation gives 36 index words per cell and is otherwise the as-written one |
| Terrain.AllocationFits | terrain.js:31-39 | the corrected allocation has room for every quad of the map |
| Terrain.AllocationAsWrittenOtherBuffers | terrain.js:31-38 | the as-written position, normal and texture buffers always have room |
| Terrain.SingleCellQuads | terrain.js:177-234 | a one-cell solid map emits six quads, since every clamped neighbour is the cell itself |
| Terrain.AllocationAsWrittenTooSmall | terrain.js:31-39 | for a one-cell solid map the as-written index buffer is too small and the corrected one suffices |
| Terrain.BuildMesh | terrain.js:31-42 | fresh zeroed buffers of the allocated sizes, filled by tesselate: each holds its layout and zeros after it; the count is 6 per quad |
| Terrain.BlockTerrain.constructor | terrain.js:12-14 | keeps the texture; no map is loaded yet |
| Terrain.BlockTerrain.LoadMap | terrain.js:19-44 | changes nothing when any extent is 0; otherwise records the extents, allocates the buffers and fills them with the mesh, and sets numElements to 6 per quad |
| SceneTree.Mark | scene.js:80-98 | markForUpdate keeps one flag per node and never adds to the number of clean nodes, the measure by which its recursion ends |
| SceneTree.Marked | scene.js:80-98 | markForUpdate on the arena changes only flags and queue, keeping the nodes and a well-formed arena |
| SceneTree.MarkGrows | scene.js:80-98 | markForUpdate only appends to the queue; each appended node was clean and is appended once; the dirty nodes afterwards are the ones before plus those appended |
| SceneTree.MarkCovers | scene.js:86-97 | afterwards the node is dirty, and so are the children of every node it queued |
| SceneTree.MarkOrder | scene.js:80-98 | on a dirty node nothing changes; on a clean node it queues the node first, and every later node it queues is a child of one it queued earlier |
| SceneTree.MarkEachOrder | scene.js:91-97 | the children loop queues nodes each of which is one of the children or a child of a node queued before it in that loop |
| SceneTree.UpdateOne | scene.js:39-56 | update leaves the queue alone and keeps the arena well formed; a root's absolute transform becomes its new relative one (the corrected root branch, see Findings) |
| SceneTree.UpdateOneAsWritten | scene.js:39-56 | the update as written: throws exactly when the parent is dirty; a child is updated as by UpdateOne; a root ends clean with its old absolute transform kept and copied into its relative one |
| SceneTree.RootUpdateAsWrittenStale | scene.js:49-53 | a root moved since its creation keeps the identity absolute transform after the as-written update and is not up to date; UpdateOne makes it up to date |
| SceneTree.Blocked | scene.js:41 | (definition) the node has a parent and that parent needs an update |
| SceneTree.UpdateThrows | scene.js:39-56 | update throws exactly when the parent exists and is dirty, so a dirty node that is its own parent always throws; otherwise the node is clean, only its two transforms change, and no other node or flag changes |
| SceneTree.UpdateMakesCurrent | scene.js:46-55 | an update that does not throw leaves a node that is not its own parent up to date |
| SceneTree.RunQueue | scene.js:198-202 | (definition) each queued node updated in order; a throw stops the loop with the queue left as it is; otherwise the queue is emptied |
| SceneTree.RunKeepsUnqueued | scene.js:198-202 | a node not queued from the loop's position on comes out of the loop with the same record and the same flag |
| SceneTree.MarkPending | scene.js:80-98 | from a state where the queue holds exactly the dirty nodes, each once, markForUpdate keeps that so and leaves the node dirty |
| SceneTree.MarkSettles | scene.js:80-98 | from a settled state, where the marked node alone may be stale, markForUpdate gives a settled state with the node dirty |
| SceneTree.UpdateStep | scene.js:199-201 | an update of the next queued node that does not throw keeps the running invariant one position further on |
| SceneTree.RunSettles | scene.js:198-202 | a queue loop that finishes leaves a settled state with an empty queue and every node clean |
| SceneTree.ParentsAheadNeverThrow | scene.js:39-44 | if every queued node's dirty parent is queued before it, the queue loop runs to the end |
| SceneTree.ChildFirstThrows | scene.js:41-43 | marking a child and then its clean parent gives the settled queue [child, parent], and the update throws at the child |
| SceneTree.PairQueuedThrows | scene.js:41-43 | with the child queued first while its parent is dirty, the queue loop throws at the child |
| SceneTree.PairMarked | scene.js:80-98 | marking the child and then its parent queues [child, parent] and dirties both |
| SceneTree.PairSettled | scene.js:39-56 | a clean parent and child, both up to date, form a settled state |
| SceneTree.Touch | scene.js:104-160 | (definition) a setter: the node's position, scale and orientation written, then markForUpdate on it |
| SceneTree.TouchPending | scene.js:104-160 | a setter keeps the queue holding exactly the dirty nodes, each once, and leaves the node dirty |
| SceneTree.TouchSettles | scene.js:104-160 | a setter keeps the state settled and leaves the node dirty |
| SceneTree.Spawn | scene.js:10-24 | (definition) the constructor: a fresh node appended to the arena, then markForUpdate on it |
| SceneTree.SpawnPending | scene.js:10-24 | the constructor appends the new node to the queue and dirties it, and nothing else; the queue still holds exactly the dirty nodes, each once |
| SceneTree.SpawnSettles | scene.js:10-24 | a new node is appended fresh, dirty and queued, and the state stays settled |
| SceneTree.AttachChild | scene.js:143-147 | attaching a child keeps the arena well formed |
| SceneTree.AttachPending | scene.js:143-147 | attaching any node changes no flag and no queue entry, so the queue still holds exactly the dirty nodes |
| SceneTree.AttachSettles | scene.js:143-147 | attaching a parentless dirty node keeps the state settled |
| SceneTree.AttachTree | scene.js:145-146 | for a node with no parent, setting the parent and appending to the children keeps links and lists in agreement |
| SceneTree.AttachDirtyDown | scene.js:145-146 | a dirty child attached to any node keeps every dirty node's children dirty |
| SceneTree.AttachCurrent | scene.js:145-146 | attaching a dirty child leaves every clean node up to date |
| SceneTree.AttachLeavesChild | scene.js:143-147 | attaching a clean node with no parent sets its parent to the new node and leaves its transforms, every flag and the queue unchanged, with the node not queued |
| SceneTree.MarkAll | scene.js:193-196 | the controllers' marks keep the nodes and a well-formed arena |
| SceneTree.MarkAllSettles | scene.js:193-196 | the controllers' marks keep the state settled |
| SceneTree.SceneUpdate | scene.js:191-203 | (definition) the controllers' marks, then the queue loop from its start |
| SceneTree.UpdateSettles | scene.js:191-203 | a Scene.update that finishes leaves a settled state with an empty queue and every node clean and up to date |
| SceneTree.RunPending | scene.js:198-202 | from any state whose queue holds exactly the dirty nodes, each once, a loop that runs to the end leaves every node clean with an empty queue, so that invariant holds again |
| SceneTree.MarkAllPending | scene.js:193-196 | the controllers' marks keep the queue holding exactly the dirty nodes, each once |
| SceneTree.UpdatePending | scene.js:191-203 | from any such state, settled or not, a Scene.update that does not throw leaves every node clean, the queue empty, and the invariant re-established for the next interval |
| SceneTree.Visit | scene.js:212-223 | renderNode visits only nodes of the arena |
| SceneTree.VisitOrder | scene.js:212-223 | renderNode visits the node first; every later node is a child of one visited before it; every child of a visited node is visited |
| SceneTree.VisitEachOrder | scene.js:219-222 | the children loop visits each child, and everything it visits is one of the children or a child of a node visited before it |
| SceneTree.DrawAt | scene.js:213-217 | (definition) a node draws once, with camera composed with its absolute transform, when its object exists and can render; otherwise it draws nothing |
| SceneTree.DrawsAppend | scene.js:212-223 | the draws of two visits in sequence are the draws of each, concatenated |
| SceneGraph.NodeArena.constructor | scene.js:29-31 | no nodes, and an empty queue |
| SceneGraph.NodeArena.QueueUpdate | scene.js:29-34 | appends the node to the queue and changes nothing else |
| SceneGraph.NodeArena.CanIgnoreUpdate | scene.js:70-73 | never ignores a node |
| SceneGraph.NodeArena.NewNode | scene.js:10-24 | appends a fresh node and marks it, giving the state of SceneTree.Spawn |
| SceneGraph.NodeArena.MarkForUpdate | scene.js:80-98 | the flags and queue become those of SceneTree.Mark; nodes and object owners are unchanged |
| SceneGraph.NodeArena.UpdateNode | scene.js:39-56 | throws exactly when SceneTree.UpdateOne does, and then changes nothing; otherwise the state becomes UpdateOne's, including the corrected root branch |
| SceneGraph.NodeArena.SetPosition | scene.js:104-107 | the node's position becomes vec, then it is marked; nothing else changes |
| SceneGraph.NodeArena.Rotate | scene.js:113-118 | the node's orientation is turned by angle about axis, then it is marked |
| SceneGraph.NodeArena.SetOrientation | scene.js:124-127 | the node's orientation becomes quat, then it is marked |
| SceneGraph.NodeArena.SetScale | scene.js:133-136 | the node's scale becomes vec, then it is marked |
| SceneGraph.NodeArena.Translate | scene.js:157-160 | vec is added to the node's position, then it is marked |
| SceneGraph.NodeArena.AttachObject | scene.js:143-151 | a node is attached as a child, leaving the object alone; any other object becomes the node's object and records the node as its owner, leaving the children alone; no flag or queue entry changes |
| SceneGraph.Scene.constructor | scene.js:166-172 | the given root, or a new node created by the constructor |
| SceneGraph.Scene.Update | scene.js:191-203 | the controllers' marks, then each queued node updated in order: throws exactly when SceneTree.SceneUpdate does, leaving its state; otherwise the queue is emptied |
| SceneGraph.Scene.RenderNode | scene.js:212-223 | the draws are those of the nodes renderNode visits, in visiting order, each with camera composed with the node's absolute transform |
| SceneGraph.Scene.Render | scene.js:205-207 | renders from the root with the camera's view |
| SceneGraph.RenderStep | scene.js:219-222 | rendering child i appends the draws of that child's visit |

## Left out

- The `VBO` object and every WebGL call are left out. This covers the buffer uploads, `BlockTerrain.render`, `setProjectionUniform` and the object's own `render`; drawing is modelled only as the order and matrix of each draw. The `VBO` construction in `loadMap` passes its arguments in an order that does not match the constructor's parameters; that call is not modelled.
- `texCoordFromId`, the tile constants and the empty `buildGrid` are left out. They are never called.
- Floating point is not modelled. Positions are stored as doubled integers, and vectors and angles are reals.
- The matrix and quaternion library is not part of this model. `mat4.createTransform`, `mat4.multiply`, `quat4.fromAngleAxis` and `quat4.multiply` become the symbolic terms `Local`, `Compose` and `Turn`. So no identity such as associativity of composition is available.
- Typed arrays silently drop writes past their end. The model instead requires each buffer to have room: `Terrain.Tesselate` and `Terrain.SetData` state that capacity as a precondition.
- Terrain.BlockTerrain.LoadMap: allocates 36 index words per cell, the corrected size, and not the 24 the source allocates (see Findings). It also requires every plane to hold at least as many rows as the first plane, and every such row at least as many cells as the first row, as `TerrainMesh.IsReadable` states.
- Terrain.BuildMesh: allocates 36 index words per cell, the corrected size, and not the 24 the source allocates (see Findings).
- Terrain.Tesselate: requires every row it reads to hold at least xn cells and every plane at least yn rows (`TerrainMesh.IsReadable`). In the source, a shorter row reads `undefined` past its end; no `> 0` test passes on it, so those faces are just not emitted. A plane with fewer than yn rows makes `get` throw a TypeError at terrain.js:107. Longer planes and rows are accepted, as in the source, and their extra cells are never read.
- TerrainMesh.AllQuadsBound: bounds the number of quads, not their Uint16 index values. The indices wrap after 16384 quads, as `TerrainMesh.IndicesWrapAt16384` shows, but no precondition excludes it.
- The fields `zrot` and `visible` are carried but never read, as in the source.
- Controllers are not modelled: each controller's `update()` becomes a sequence of nodes it marks before the queue is processed. `attachController`, `getRootNode` and the scratch matrix `Scene.m` are left out.
- Aliasing and cycles among scene nodes are not modelled beyond the index arena. Rendering requires a rank that decreases from parent to child (`SceneTree.Ranked`), which excludes cycles; `markForUpdate` needs no such condition.
- SceneGraph.Scene.Update: after a throw, the state is the one at the throw, with the queue not emptied; nothing is said about later calls.
- SceneTree.AttachSettles: requires the attached node to be parentless and dirty. Re-parenting a node, or attaching a clean one, does not keep the state settled (see `SceneTree.AttachLeavesChild` and `SceneTree.RunKeepsUnqueued`); the queue still holds exactly the dirty nodes, each once, before and after the next update (`SceneTree.AttachPending`, `SceneTree.UpdatePending`).

## Findings

| source | as written | input that shows it | evidently intended | confidence | as-written member | corrected member |
|---|---|---|---|---|---|---|
| terrain.js:31-39 | the index buffer gets one word per vertex, 24 per cell, but every quad writes 6 index words for its 4 vertices, so one cell can need 36 | a 1x1x1 map holding one solid block: each of its six clamped neighbours is the block itself, so 6 quads write 36 index words into a 24-word buffer | 6 index words per side, 36 per cell | not executed | Terrain.AllocationAsWrittenTooSmall | Terrain.AllocationFits |
| scene.js:49-53 | for a root, `mat4.set(this.absoluteTransform, relative)` copies the old absolute transform into the relative one, since the library's `set` copies its first argument into its second | a single root whose position was set to (1, 0, 0): after update its absolute transform is still the identity, so the move never reaches rendering | the root's absolute transform becomes its new relative transform | not executed | SceneTree.RootUpdateAsWrittenStale | SceneTree.UpdateMakesCurrent |
| scene.js:41-43 | the throw is left in on the claim, in the comment at line 42, that parents are always queued first; across two setter calls a child can be queued ahead of its parent | `child.setPosition(v)` then `parent.setPosition(v)` in one frame queues [child, parent]; `Scene.update` throws at the child | updating a node only after its dirty parent, so the throw is never reached | not executed | SceneTree.ChildFirstThrows | SceneTree.ParentsAheadNeverThrow |

/**
 * The scene graph of scene.js stated as values: the nodes (held in an
 * arena and named by index), their dirty flags and the update queue, and
 * the functions that say what markForUpdate, SceneNode.update,
 * Scene.update and renderNode compute.
 *
 * The maths of mat4, vec3 and quat4 is not modelled: transforms and
 * orientations are symbolic terms, so two transforms are equal exactly
 * when they were built by the same calls from the same inputs.
 */
module SceneTree {

  datatype Option<T> = None | Some(value: T)

  /** A node's index in the arena of all nodes. */
  type Id = nat

  datatype Vec3 = Vec3(x: real, y: real, z: real)

  /** vec3.add. */
  function Add(a: Vec3, b: Vec3): Vec3 {
    Vec3(a.x + b.x, a.y + b.y, a.z + b.z)
  }

  /** An orientation: quat4.identity(), a quaternion set by the caller, or one turned by `rotate`. */
  datatype Quat = QuatIdentity | QuatOf(x: real, y: real, z: real, w: real) | Turn(base: Quat, angle: real, axis: Vec3)

  /**
   * A 4x4 matrix as the calls that built it: the identity,
   * mat4.createTransform(position, scale, orientation), or
   * mat4.multiply(outer, inner).
   */
  datatype Transform = Identity | Local(position: Vec3, scale: Vec3, orientation: Quat) | Compose(outer: Transform, inner: Transform)

  /** An object attached to a node; `renders` says whether it has a render method. */
  datatype Payload = Payload(id: nat, renders: bool)

  /** The fields of a SceneNode other than needs_update. */
  datatype Node = Node(children: seq<Id>, payload: Option<Payload>, position: Vec3, scale: Vec3, zrot: real,
                       orientation: Quat, parent: Option<Id>, relative: Transform, absolute: Transform,
                       visible: bool)

  /** A node as the SceneNode constructor leaves it, before markForUpdate. */
  const Fresh: Node := Node([], None, Vec3(0.0, 0.0, 0.0), Vec3(1.0, 1.0, 1.0), 0.0, QuatIdentity,
                            None, Identity, Identity, true)

  /** Every index of ids is below n. */
  predicate Within(ids: seq<Id>, n: nat) {
    forall k :: 0 <= k < |ids| ==> ids[k] < n
  }

  /** Every child and parent index names a node of the arena. */
  predicate Closed(nodes: seq<Node>) {
    && (forall m :: 0 <= m < |nodes| ==> Within(nodes[m].children, |nodes|))
    && (forall m :: 0 <= m < |nodes| && nodes[m].parent.Some? ==> nodes[m].parent.value < |nodes|)
  }

  /** All nodes, their needs_update flags and SceneNode.queue. */
  datatype World = World(nodes: seq<Node>, dirty: seq<bool>, queue: seq<Id>)

  predicate WorldOk(w: World) {
    && Closed(w.nodes)
    && |w.dirty| == |w.nodes|
    && Within(w.queue, |w.nodes|)
  }

  // ---------------------------------------------------------------------
  // markForUpdate
  // ---------------------------------------------------------------------

  /** The clean nodes: markForUpdate terminates because each call that does work makes one dirty. */
  function Clean(d: seq<bool>): set<int> {
    set m | 0 <= m < |d| && !d[m]
  }

  /**
   * markForUpdate(n): nothing when n is already dirty; otherwise n becomes
   * dirty, is queued, and every child is marked in turn (canIgnoreUpdate is
   * always false). The result is the new flags and queue.
   */
  function Mark(nodes: seq<Node>, d: seq<bool>, q: seq<Id>, n: Id): (r: (seq<bool>, seq<Id>))
    requires Closed(nodes) && |d| == |nodes| && n < |nodes|
    ensures |r.0| == |d| && |Clean(r.0)| <= |Clean(d)|
    decreases |Clean(d)|, 0
  {
    if d[n] then (d, q)
    else
      var d1 := d[n := true];
      assert Clean(d1) == Clean(d) - {n};
      MarkEach(nodes, d1, q + [n], nodes[n].children)
  }

  /** The loop over the children: mark each of cs in order. */
  function MarkEach(nodes: seq<Node>, d: seq<bool>, q: seq<Id>, cs: seq<Id>): (r: (seq<bool>, seq<Id>))
    requires Closed(nodes) && |d| == |nodes| && Within(cs, |nodes|)
    ensures |r.0| == |d| && |Clean(r.0)| <= |Clean(d)|
    decreases |Clean(d)|, 1, |cs|
  {
    if cs == [] then (d, q)
    else
      var r1 := Mark(nodes, d, q, cs[0]);
      MarkEach(nodes, r1.0, r1.1, cs[1..])
  }

  /**
   * From (d, q) to (d', q'): the queue only grows, and what is appended is
   * a list of nodes that were clean, each at most once, which are exactly
   * the nodes that became dirty.
   */
  predicate Grows(d: seq<bool>, q: seq<Id>, d': seq<bool>, q': seq<Id>) {
    && |d'| == |d| && q <= q'
    && (forall k :: |q| <= k < |q'| ==> q'[k] < |d| && !d[q'[k]])
    && (forall k, l :: |q| <= k < l < |q'| ==> q'[k] != q'[l])
    && (forall m :: 0 <= m < |d| ==> (d'[m] <==> d[m] || m in q'[|q|..]))
  }

  lemma GrowsRefl(d: seq<bool>, q: seq<Id>)
    ensures Grows(d, q, d, q)
  {
    assert q[|q|..] == [];
  }

  /** One clean node made dirty and queued. */
  lemma GrowsStep(d: seq<bool>, q: seq<Id>, n: Id)
    requires n < |d| && !d[n]
    ensures Grows(d, q, d[n := true], q + [n])
  {
    assert (q + [n])[|q|..] == [n];
  }

  lemma GrowsTrans(d: seq<bool>, q: seq<Id>, d1: seq<bool>, q1: seq<Id>, d2: seq<bool>, q2: seq<Id>)
    requires Grows(d, q, d1, q1) && Grows(d1, q1, d2, q2)
    ensures Grows(d, q, d2, q2)
  {
    assert q2[|q|..] == q1[|q|..] + q2[|q1|..];
    forall k | |q1| <= k < |q2|
      ensures !d[q2[k]] && q2[k] !in q1[|q|..]
    {
      assert !d1[q2[k]];
    }
    forall k, l | |q| <= k < l < |q2|
      ensures q2[k] != q2[l]
    {
      if l >= |q1| && k < |q1| {
        assert q2[k] == q1[k] && q1[k] in q1[|q|..];
      }
    }
  }

  /** What one markForUpdate call adds: see Grows. */
  lemma {:induction false} MarkGrows(nodes: seq<Node>, d: seq<bool>, q: seq<Id>, n: Id)
    requires Closed(nodes) && |d| == |nodes| && n < |nodes|
    ensures var r := Mark(nodes, d, q, n); Grows(d, q, r.0, r.1)
    decreases |Clean(d)|, 0
  {
    if d[n] {
      GrowsRefl(d, q);
    } else {
      var d1 := d[n := true];
      assert Clean(d1) == Clean(d) - {n};
      var r := MarkEach(nodes, d1, q + [n], nodes[n].children);
      GrowsStep(d, q, n);
      MarkEachGrows(nodes, d1, q + [n], nodes[n].children);
      GrowsTrans(d, q, d1, q + [n], r.0, r.1);
    }
  }

  lemma {:induction false} MarkEachGrows(nodes: seq<Node>, d: seq<bool>, q: seq<Id>, cs: seq<Id>)
    requires Closed(nodes) && |d| == |nodes| && Within(cs, |nodes|)
    ensures var r := MarkEach(nodes, d, q, cs); Grows(d, q, r.0, r.1)
    decreases |Clean(d)|, 1, |cs|
  {
    if cs == [] {
      GrowsRefl(d, q);
    } else {
      var r1 := Mark(nodes, d, q, cs[0]);
      var r := MarkEach(nodes, r1.0, r1.1, cs[1..]);
      MarkGrows(nodes, d, q, cs[0]);
      MarkEachGrows(nodes, r1.0, r1.1, cs[1..]);
      GrowsTrans(d, q, r1.0, r1.1, r.0, r.1);
    }
  }

  /** Growing only ever sets flags. */
  lemma GrowsMonotone(d: seq<bool>, q: seq<Id>, d': seq<bool>, q': seq<Id>, m: Id)
    requires Grows(d, q, d', q') && m < |d| && d[m]
    ensures d'[m]
  {
  }

  /** Every node of cs is dirty in d. */
  predicate AllDirty(cs: seq<Id>, d: seq<bool>) {
    forall j :: 0 <= j < |cs| ==> cs[j] < |d| && d[cs[j]]
  }

  /** Every node queued after the first |q| has all its children dirty. */
  predicate Covers(nodes: seq<Node>, d: seq<bool>, q: seq<Id>, q': seq<Id>) {
    forall k :: |q| <= k < |q'| ==> q'[k] < |nodes| && AllDirty(nodes[q'[k]].children, d)
  }

  /**
   * markForUpdate(n) leaves n dirty, and every node it queues with its
   * children dirty: the node and all its descendants are dirty afterwards.
   */
  lemma {:induction false} MarkCovers(nodes: seq<Node>, d: seq<bool>, q: seq<Id>, n: Id)
    requires Closed(nodes) && |d| == |nodes| && n < |nodes|
    ensures var r := Mark(nodes, d, q, n); r.0[n] && Covers(nodes, r.0, q, r.1)
    decreases |Clean(d)|, 0
  {
    if !d[n] {
      var d1 := d[n := true];
      assert Clean(d1) == Clean(d) - {n};
      var r := MarkEach(nodes, d1, q + [n], nodes[n].children);
      MarkEachGrows(nodes, d1, q + [n], nodes[n].children);
      MarkEachCovers(nodes, d1, q + [n], nodes[n].children);
      GrowsMonotone(d1, q + [n], r.0, r.1, n);
      assert r.1[|q|] == n;
    }
  }

  lemma {:induction false} MarkEachCovers(nodes: seq<Node>, d: seq<bool>, q: seq<Id>, cs: seq<Id>)
    requires Closed(nodes) && |d| == |nodes| && Within(cs, |nodes|)
    ensures var r := MarkEach(nodes, d, q, cs); AllDirty(cs, r.0) && Covers(nodes, r.0, q, r.1)
    decreases |Clean(d)|, 1, |cs|
  {
    if cs != [] {
      var r1 := Mark(nodes, d, q, cs[0]);
      var r := MarkEach(nodes, r1.0, r1.1, cs[1..]);
      MarkCovers(nodes, d, q, cs[0]);
      MarkGrows(nodes, d, q, cs[0]);
      MarkEachCovers(nodes, r1.0, r1.1, cs[1..]);
      MarkEachGrows(nodes, r1.0, r1.1, cs[1..]);
      forall m | 0 <= m < |d| && r1.0[m]
        ensures r.0[m]
      {
        GrowsMonotone(r1.0, r1.1, r.0, r.1, m);
      }
      assert AllDirty(cs[1..], r.0);
      forall j | 0 <= j < |cs|
        ensures cs[j] < |r.0| && r.0[cs[j]]
      {
        if j > 0 {
          assert cs[j] == cs[1..][j - 1];
        }
      }
      forall k | |q| <= k < |r1.1|
        ensures AllDirty(nodes[r.1[k]].children, r.0)
      {
        assert r.1[k] == r1.1[k];
      }
    }
  }

  /** Node A[k] is a child of a node queued before it. */
  predicate Linked(nodes: seq<Node>, a: seq<Id>, k: nat) {
    exists j :: 0 <= j < k && k < |a| && a[j] < |nodes| && a[k] in nodes[a[j]].children
  }

  lemma LinkedShift(nodes: seq<Node>, pre: seq<Id>, a: seq<Id>, k: nat)
    requires Linked(nodes, a, k)
    ensures Linked(nodes, pre + a, |pre| + k)
  {
    var j :| 0 <= j < k && k < |a| && a[j] < |nodes| && a[k] in nodes[a[j]].children;
    var b := pre + a;
    assert b[|pre| + j] == a[j] && b[|pre| + k] == a[k];
  }

  /** markForUpdate only appends to the queue. */
  lemma MarkExtends(nodes: seq<Node>, d: seq<bool>, q: seq<Id>, n: Id)
    requires Closed(nodes) && |d| == |nodes| && n < |nodes|
    ensures q <= Mark(nodes, d, q, n).1
  {
    MarkGrows(nodes, d, q, n);
  }

  lemma MarkEachExtends(nodes: seq<Node>, d: seq<bool>, q: seq<Id>, cs: seq<Id>)
    requires Closed(nodes) && |d| == |nodes| && Within(cs, |nodes|)
    ensures q <= MarkEach(nodes, d, q, cs).1
  {
    MarkEachGrows(nodes, d, q, cs);
  }

  /** Every node of a after the first is a child of one before it. */
  predicate Chain(nodes: seq<Node>, a: seq<Id>) {
    forall k :: 0 < k < |a| ==> Linked(nodes, a, k)
  }

  /** Every node of a is one of cs or a child of one before it. */
  predicate ChainFrom(nodes: seq<Node>, a: seq<Id>, cs: seq<Id>) {
    forall k :: 0 <= k < |a| ==> a[k] in cs || Linked(nodes, a, k)
  }

  /**
   * Parents are queued first, within one markForUpdate call: the first node
   * it queues is n itself, and every later one is a child of a node it
   * queued earlier.
   */
  lemma {:induction false} MarkOrder(nodes: seq<Node>, d: seq<bool>, q: seq<Id>, n: Id)
    requires Closed(nodes) && |d| == |nodes| && n < |nodes|
    ensures var r := Mark(nodes, d, q, n);
      && q <= r.1
      && (d[n] ==> r == (d, q))
      && (!d[n] ==> |r.1| > |q| && r.1[|q|] == n)
      && Chain(nodes, r.1[|q|..])
    decreases |Clean(d)|, 0
  {
    var r := Mark(nodes, d, q, n);
    MarkExtends(nodes, d, q, n);
    if d[n] {
      assert r.1[|q|..] == [];
    } else {
      var d1 := d[n := true];
      assert Clean(d1) == Clean(d) - {n};
      var cs := nodes[n].children;
      MarkEachExtends(nodes, d1, q + [n], cs);
      MarkEachOrder(nodes, d1, q + [n], cs);
      ChainAfterParent(nodes, n, r.1[|q| + 1..]);
      assert r.1[|q|..] == [n] + r.1[|q| + 1..];
    }
  }

  /** n followed by nodes that are children of n or of nodes before them. */
  lemma ChainAfterParent(nodes: seq<Node>, n: Id, e: seq<Id>)
    requires n < |nodes| && ChainFrom(nodes, e, nodes[n].children)
    ensures Chain(nodes, [n] + e)
  {
    var a := [n] + e;
    forall k | 0 < k < |a|
      ensures Linked(nodes, a, k)
    {
      if e[k - 1] in nodes[n].children {
        assert a[0] == n && a[k] == e[k - 1];
      } else {
        LinkedShift(nodes, [n], e, k - 1);
      }
    }
  }

  lemma {:induction false} MarkEachOrder(nodes: seq<Node>, d: seq<bool>, q: seq<Id>, cs: seq<Id>)
    requires Closed(nodes) && |d| == |nodes| && Within(cs, |nodes|)
    ensures var r := MarkEach(nodes, d, q, cs); q <= r.1 && ChainFrom(nodes, r.1[|q|..], cs)
    decreases |Clean(d)|, 1, |cs|
  {
    var r := MarkEach(nodes, d, q, cs);
    MarkEachExtends(nodes, d, q, cs);
    if cs == [] {
      assert r.1[|q|..] == [];
    } else {
      var r1 := Mark(nodes, d, q, cs[0]);
      MarkOrder(nodes, d, q, cs[0]);
      MarkEachOrder(nodes, r1.0, r1.1, cs[1..]);
      SliceSplit(q, r1.1, r.1);
      ChainConcat(nodes, r1.1[|q|..], r.1[|r1.1|..], cs);
    }
  }

  /** What a grown queue adds past q: what the middle one adds, then the rest. */
  lemma SliceSplit(q: seq<Id>, m: seq<Id>, r: seq<Id>)
    requires q <= m <= r
    ensures r[|q|..] == m[|q|..] + r[|m|..]
  {
  }

  /** A chain headed by cs[0], then a chain from cs[1..]: together a chain from cs. */
  lemma ChainConcat(nodes: seq<Node>, a1: seq<Id>, a2: seq<Id>, cs: seq<Id>)
    requires |cs| > 0 && (a1 == [] || a1[0] == cs[0]) && Chain(nodes, a1) && ChainFrom(nodes, a2, cs[1..])
    ensures ChainFrom(nodes, a1 + a2, cs)
  {
    var a := a1 + a2;
    forall k | 0 <= k < |a|
      ensures a[k] in cs || Linked(nodes, a, k)
    {
      if k < |a1| {
        if k == 0 {
          assert a[0] == cs[0];
        } else {
          LinkedPrefix(nodes, a1, a2, k);
        }
      } else if a2[k - |a1|] in cs[1..] {
        assert a[k] == a2[k - |a1|];
      } else {
        LinkedShift(nodes, a1, a2, k - |a1|);
      }
    }
  }

  lemma LinkedPrefix(nodes: seq<Node>, a: seq<Id>, b: seq<Id>, k: nat)
    requires Linked(nodes, a, k)
    ensures Linked(nodes, a + b, k)
  {
    var j :| 0 <= j < k && k < |a| && a[j] < |nodes| && a[k] in nodes[a[j]].children;
    assert (a + b)[j] == a[j] && (a + b)[k] == a[k];
  }

  // ---------------------------------------------------------------------
  // SceneNode.update and Scene.update
  // ---------------------------------------------------------------------

  /** The local transform SceneNode.update builds for a node. */
  function LocalOf(node: Node): Transform {
    Local(node.position, node.scale, node.orientation)
  }

  /** SceneNode.update throws: the node has a parent and the parent still needs an update. */
  predicate Blocked(w: World, n: Id)
    requires WorldOk(w) && n < |w.nodes|
  {
    w.nodes[n].parent.Some? && w.dirty[w.nodes[n].parent.value]
  }

  /**
   * SceneNode.update: None when it throws; otherwise the relative transform
   * is rebuilt, the absolute one composed with the parent's (or copied for
   * a root), and the node is clean.
   */
  function UpdateOne(w: World, n: Id): (r: Option<World>)
    requires WorldOk(w) && n < |w.nodes|
    ensures r.Some? ==> WorldOk(r.value) && r.value.queue == w.queue && |r.value.nodes| == |w.nodes|
  {
    var node := w.nodes[n];
    if Blocked(w, n) then None
    else
      var rel := LocalOf(node);
      var abs := if node.parent.Some? then Compose(w.nodes[node.parent.value].absolute, rel) else rel;
      Some(World(w.nodes[n := node.(relative := rel, absolute := abs)], w.dirty[n := false], w.queue))
  }

  /**
   * SceneNode.update as written. The matrix library's `set` copies its first
   * argument into its second, so for a root `mat4.set(absolute, relative)`
   * overwrites the freshly built relative transform with the old absolute one,
   * and the absolute transform never changes. A child is updated as by
   * UpdateOne.
   */
  function UpdateOneAsWritten(w: World, n: Id): (r: Option<World>)
    requires WorldOk(w) && n < |w.nodes|
    ensures r.Some? ==> WorldOk(r.value) && r.value.queue == w.queue && |r.value.nodes| == |w.nodes|
    ensures r.None? <==> Blocked(w, n)
    ensures w.nodes[n].parent.Some? ==> r == UpdateOne(w, n)
    ensures r.Some? && w.nodes[n].parent.None? ==>
      && r.value.nodes[n].absolute == w.nodes[n].absolute
      && r.value.nodes[n].relative == w.nodes[n].absolute
      && !r.value.dirty[n]
  {
    var node := w.nodes[n];
    if Blocked(w, n) then None
    else if node.parent.Some? then
      var rel := LocalOf(node);
      Some(World(w.nodes[n := node.(relative := rel, absolute := Compose(w.nodes[node.parent.value].absolute, rel))],
                 w.dirty[n := false], w.queue))
    else
      Some(World(w.nodes[n := node.(relative := node.absolute)], w.dirty[n := false], w.queue))
  }

  /** A single root moved to (1, 0, 0) since it was created: dirty and queued. */
  function MovedRoot(): World {
    World([Fresh.(position := Vec3(1.0, 0.0, 0.0))], [true], [0])
  }

  /**
   * As written, updating the moved root leaves its absolute transform at the
   * identity the constructor gave it, so the root is not up to date and the
   * move never reaches rendering; the corrected UpdateOne makes it up to date.
   */
  lemma RootUpdateAsWrittenStale()
    ensures WorldOk(MovedRoot())
    ensures var r := UpdateOneAsWritten(MovedRoot(), 0);
      r.Some? && r.value.nodes[0].absolute == Identity && !Current(r.value, 0)
    ensures var r := UpdateOne(MovedRoot(), 0);
      r.Some? && Current(r.value, 0)
  {
    var w := MovedRoot();
    assert !Blocked(w, 0);
    assert LocalOf(w.nodes[0]) != Identity;
  }

  /**
   * SceneNode.update throws exactly when the node has a parent and that
   * parent is dirty; in particular a dirty node that is its own parent
   * always throws. Otherwise the node is clean, only its two transforms
   * change, and no other node or flag changes.
   */
  lemma UpdateThrows(w: World, n: Id)
    requires WorldOk(w) && n < |w.nodes|
    ensures UpdateOne(w, n).None? <==> w.nodes[n].parent.Some? && w.dirty[w.nodes[n].parent.value]
    ensures w.nodes[n].parent == Some(n) && w.dirty[n] ==> UpdateOne(w, n).None?
    ensures UpdateOne(w, n).Some? ==>
      var w' := UpdateOne(w, n).value;
      && !w'.dirty[n]
      && w'.nodes[n] == w.nodes[n].(relative := w'.nodes[n].relative, absolute := w'.nodes[n].absolute)
      && (forall m :: 0 <= m < |w.nodes| && m != n ==> w'.nodes[m] == w.nodes[m] && w'.dirty[m] == w.dirty[m])
  {
  }

  /**
   * When SceneNode.update does not throw and the node is not its own
   * parent, the node is up to date afterwards.
   */
  lemma UpdateMakesCurrent(w: World, n: Id)
    requires WorldOk(w) && n < |w.nodes| && w.nodes[n].parent != Some(n)
    ensures UpdateOne(w, n).Some? ==> Current(UpdateOne(w, n).value, n)
  {
  }

  /** What Scene.update ends in: the queue run to the end and emptied, or a throw at some node. */
  datatype Outcome = Finished(w: World) | Threw(w: World, at: Id)

  /**
   * The loop of Scene.update from position i of the queue: update each
   * queued node in order; a throw ends the loop and leaves the queue as it
   * is; otherwise the queue is emptied.
   */
  function RunQueue(w: World, i: nat): Outcome
    requires WorldOk(w)
    decreases |w.queue| - i
  {
    if i >= |w.queue| then Finished(w.(queue := []))
    else
      match UpdateOne(w, w.queue[i])
      case None => Threw(w, w.queue[i])
      case Some(w1) => RunQueue(w1, i + 1)
  }

  /** Node m is up to date: its transforms are what SceneNode.update would compute now. */
  predicate Current(w: World, m: Id)
    requires WorldOk(w) && m < |w.nodes|
  {
    var node := w.nodes[m];
    && node.relative == LocalOf(node)
    && node.absolute == (if node.parent.Some? then Compose(w.nodes[node.parent.value].absolute, LocalOf(node))
                         else LocalOf(node))
  }

  /** Parent links and child lists agree. */
  predicate Tree(nodes: seq<Node>) {
    forall m, p :: 0 <= m < |nodes| && 0 <= p < |nodes| ==>
      (nodes[m].parent == Some(p) <==> m in nodes[p].children)
  }

  /** The children of a dirty node are dirty. */
  predicate DirtyDown(w: World)
    requires WorldOk(w)
  {
    forall p, k :: 0 <= p < |w.nodes| && 0 <= k < |w.nodes[p].children| && w.dirty[p] ==>
      w.dirty[w.nodes[p].children[k]]
  }

  /** Every clean node other than `except` is up to date. */
  predicate CleanCurrent(w: World, except: Option<Id>)
    requires WorldOk(w)
  {
    forall m :: 0 <= m < |w.nodes| && !w.dirty[m] && except != Some(m) ==> Current(w, m)
  }

  /** The queue from position i on holds each node at most once, and the dirty nodes are exactly those. */
  predicate Pending(w: World, i: nat)
    requires WorldOk(w)
  {
    && i <= |w.queue|
    && (forall k, l :: 0 <= k < l < |w.queue| ==> w.queue[k] != w.queue[l])
    && (forall m :: 0 <= m < |w.nodes| ==> (w.dirty[m] <==> m in w.queue[i..]))
  }

  /**
   * The state between two Scene.update calls: a consistent tree, the queue
   * is the set of dirty nodes with no repeats, a dirty node's children are
   * dirty, and every clean node is up to date.
   */
  predicate Settled(w: World) {
    && WorldOk(w) && Tree(w.nodes) && Pending(w, 0) && DirtyDown(w) && CleanCurrent(w, None)
  }

  /** As Settled, part-way through the queue, and allowing node `except` to be stale. */
  predicate Running(w: World, i: nat, except: Option<Id>) {
    && WorldOk(w) && Tree(w.nodes) && Pending(w, i) && DirtyDown(w) && CleanCurrent(w, except)
  }

  /** The flags and queue after markForUpdate(n). */
  function Marked(w: World, n: Id): (r: World)
    requires WorldOk(w) && n < |w.nodes|
    ensures r.nodes == w.nodes && WorldOk(r)
  {
    var r := Mark(w.nodes, w.dirty, w.queue, n);
    MarkGrows(w.nodes, w.dirty, w.queue, n);
    World(w.nodes, r.0, r.1)
  }

  /**
   * markForUpdate(n) keeps the queue in step with the flags: each node is
   * queued at most once, and exactly the dirty nodes are queued. n is dirty
   * afterwards.
   */
  lemma MarkPending(w: World, n: Id)
    requires WorldOk(w) && Pending(w, 0) && n < |w.nodes|
    ensures Pending(Marked(w, n), 0) && Marked(w, n).dirty[n]
  {
    var w' := Marked(w, n);
    MarkGrows(w.nodes, w.dirty, w.queue, n);
    MarkCovers(w.nodes, w.dirty, w.queue, n);
    var a := w'.queue[|w.queue|..];
    assert w'.queue == w.queue + a;
    forall k, l | 0 <= k < l < |w'.queue|
      ensures w'.queue[k] != w'.queue[l]
    {
      if k < |w.queue| && l >= |w.queue| {
        assert w.dirty[w'.queue[k]] by {
          assert w'.queue[k] == w.queue[k] && w.queue[k] in w.queue[0..];
        }
      }
    }
    forall m | 0 <= m < |w.nodes|
      ensures w'.dirty[m] <==> m in w'.queue[0..]
    {
      assert w.dirty[m] <==> m in w.queue[0..];
    }
  }

  /**
   * markForUpdate(n) from a settled state, or one where only n may be
   * stale (a setter has just written one of its fields): settled again,
   * with n dirty.
   */
  lemma MarkSettles(w: World, n: Id)
    requires Running(w, 0, Some(n)) && n < |w.nodes|
    ensures Settled(Marked(w, n)) && Marked(w, n).dirty[n]
  {
    var w' := Marked(w, n);
    MarkGrows(w.nodes, w.dirty, w.queue, n);
    MarkCovers(w.nodes, w.dirty, w.queue, n);
    MarkPending(w, n);
    forall p, k | 0 <= p < |w.nodes| && 0 <= k < |w.nodes[p].children| && w'.dirty[p]
      ensures w'.dirty[w.nodes[p].children[k]]
    {
      if w.dirty[p] {
        GrowsMonotone(w.dirty, w.queue, w'.dirty, w'.queue, w.nodes[p].children[k]);
      } else {
        var j :| |w.queue| <= j < |w'.queue| && w'.queue[j] == p;
      }
    }
    forall m | 0 <= m < |w.nodes| && !w'.dirty[m]
      ensures Current(w', m)
    {
      assert Current(w, m);
    }
  }

  /** One step of the Scene.update loop keeps the run's invariant. */
  lemma UpdateStep(w: World, i: nat)
    requires Running(w, i, None) && i < |w.queue| && UpdateOne(w, w.queue[i]).Some?
    ensures Running(UpdateOne(w, w.queue[i]).value, i + 1, None)
  {
    var n := w.queue[i];
    var w1 := UpdateOne(w, n).value;
    assert w.dirty[n] by {
      assert n in w.queue[i..];
    }
    forall m | 0 <= m < |w.nodes|
      ensures w1.dirty[m] <==> m in w.queue[i + 1..]
    {
      assert w.queue[i..] == [n] + w.queue[i + 1..];
      if m == n {
        assert n !in w.queue[i + 1..] by {
          forall l | i + 1 <= l < |w.queue| ensures w.queue[l] != n { }
        }
      }
    }
    forall p, k | 0 <= p < |w.nodes| && 0 <= k < |w1.nodes[p].children| && w1.dirty[p]
      ensures w1.dirty[w1.nodes[p].children[k]]
    {
    }
    forall m | 0 <= m < |w.nodes| && !w1.dirty[m]
      ensures Current(w1, m)
    {
      if m != n {
        assert Current(w, m);
      }
    }
  }

  /**
   * Scene.update's loop from a settled state: when it runs to the end,
   * every node is clean and up to date, and the queue is empty.
   */
  lemma {:induction false} RunSettles(w: World, i: nat)
    requires Running(w, i, None)
    ensures RunQueue(w, i).Finished? ==>
      var w' := RunQueue(w, i).w;
      && Settled(w') && w'.queue == [] && |w'.nodes| == |w.nodes|
      && forall m :: 0 <= m < |w'.dirty| ==> !w'.dirty[m]
    decreases |w.queue| - i
  {
    if i >= |w.queue| {
      var w' := w.(queue := []);
      assert forall m :: 0 <= m < |w.nodes| ==> (w.dirty[m] <==> m in w.queue[i..]);
      assert w.queue[i..] == [];
      assert forall m :: 0 <= m < |w.nodes| ==> Current(w, m) ==> Current(w', m);
    } else if UpdateOne(w, w.queue[i]).Some? {
      UpdateStep(w, i);
      RunSettles(UpdateOne(w, w.queue[i]).value, i + 1);
    }
  }

  /** From position i on, the parent of each queued node is a root's absent parent, clean, or queued before it. */
  predicate ParentsAhead(w: World, i: nat)
    requires WorldOk(w)
  {
    forall k :: i <= k < |w.queue| ==>
      var parent := w.nodes[w.queue[k]].parent;
      parent.None? || !w.dirty[parent.value] || parent.value in w.queue[i..k]
  }

  /**
   * The claim behind the throw in SceneNode.update: when every queued
   * node's dirty parent is queued before it, Scene.update runs to the end.
   */
  lemma {:induction false} ParentsAheadNeverThrow(w: World, i: nat)
    requires WorldOk(w) && ParentsAhead(w, i)
    ensures RunQueue(w, i).Finished?
    decreases |w.queue| - i
  {
    if i < |w.queue| {
      var n := w.queue[i];
      assert w.queue[i..i] == [];
      var w1 := UpdateOne(w, n).value;
      forall k | i + 1 <= k < |w1.queue|
        ensures var parent := w1.nodes[w1.queue[k]].parent;
          parent.None? || !w1.dirty[parent.value] || parent.value in w1.queue[i + 1..k]
      {
        var parent := w.nodes[w.queue[k]].parent;
        if parent.Some? && w.dirty[parent.value] && parent.value != n {
          assert w.queue[i..k] == [n] + w.queue[i + 1..k];
        }
      }
      ParentsAheadNeverThrow(w1, i + 1);
    }
  }

  /** Two clean, up-to-date nodes: node 0 the parent of node 1. */
  function PairWorld(): World {
    var rootLocal := Local(Vec3(0.0, 0.0, 0.0), Vec3(1.0, 1.0, 1.0), QuatIdentity);
    var parent := Fresh.(children := [1], relative := rootLocal, absolute := rootLocal);
    var child := Fresh.(parent := Some(0), relative := rootLocal, absolute := Compose(rootLocal, rootLocal));
    World([parent, child], [false, false], [])
  }

  /**
   * The claim fails across calls: mark the child, then its clean parent.
   * The queue is [child, parent], the state is settled, and Scene.update
   * throws at the child.
   */
  lemma ChildFirstThrows()
    ensures Settled(PairWorld())
    ensures var w := Marked(Marked(PairWorld(), 1), 0);
      && Settled(w) && w.queue == [1, 0] && RunQueue(w, 0) == Threw(w, 1)
  {
    PairSettled();
    var w0 := PairWorld();
    MarkSettles(w0, 1);
    MarkSettles(Marked(w0, 1), 0);
    PairMarked();
    PairQueuedThrows();
  }

  /** Both nodes dirty, the child queued first. */
  function PairQueued(): World {
    PairWorld().(dirty := [true, true], queue := [1, 0])
  }

  /** The child comes first in the queue while its parent is dirty: update throws there. */
  lemma PairQueuedThrows()
    ensures WorldOk(PairQueued()) && RunQueue(PairQueued(), 0) == Threw(PairQueued(), 1)
  {
    assert Blocked(PairQueued(), 1);
  }

  lemma PairSettled()
    ensures Settled(PairWorld())
  {
    var w0 := PairWorld();
    assert Tree(w0.nodes) by {
      assert 1 in w0.nodes[0].children;
    }
    assert Pending(w0, 0);
  }

  /** Marking the child and then the parent queues [child, parent]. */
  lemma PairMarked()
    ensures Marked(Marked(PairWorld(), 1), 0) == PairQueued()
  {
    var w0 := PairWorld();
    assert Mark(w0.nodes, w0.dirty, [], 1) == ([false, true], [1]) by {
      assert w0.dirty[1 := true] == [false, true];
      assert w0.nodes[1].children == [] && [] + [1] == [1];
      assert MarkEach(w0.nodes, [false, true], [1], []) == ([false, true], [1]);
    }
    assert Mark(w0.nodes, [false, true], [1], 0) == ([true, true], [1, 0]) by {
      assert [false, true][0 := true] == [true, true];
      assert [1] + [0] == [1, 0];
      assert Mark(w0.nodes, [true, true], [1, 0], 1) == ([true, true], [1, 0]);
    }
  }

  /** A setter: position, scale and orientation written, then markForUpdate. */
  function Touch(w: World, n: Id, position: Vec3, scale: Vec3, orientation: Quat): World
    requires WorldOk(w) && n < |w.nodes|
  {
    var node := w.nodes[n].(position := position, scale := scale, orientation := orientation);
    Marked(w.(nodes := w.nodes[n := node]), n)
  }

  /** A setter keeps the queue in step with the flags and leaves the node dirty. */
  lemma TouchPending(w: World, n: Id, position: Vec3, scale: Vec3, orientation: Quat)
    requires WorldOk(w) && Pending(w, 0) && n < |w.nodes|
    ensures Pending(Touch(w, n, position, scale, orientation), 0)
    ensures Touch(w, n, position, scale, orientation).dirty[n]
  {
    var node := w.nodes[n].(position := position, scale := scale, orientation := orientation);
    MarkPending(w.(nodes := w.nodes[n := node]), n);
  }

  /** A setter keeps the state settled and leaves the node dirty. */
  lemma TouchSettles(w: World, n: Id, position: Vec3, scale: Vec3, orientation: Quat)
    requires Settled(w) && n < |w.nodes|
    ensures Settled(Touch(w, n, position, scale, orientation))
    ensures Touch(w, n, position, scale, orientation).dirty[n]
  {
    var node := w.nodes[n].(position := position, scale := scale, orientation := orientation);
    var w1 := w.(nodes := w.nodes[n := node]);
    forall m | 0 <= m < |w.nodes| && !w1.dirty[m] && m != n
      ensures Current(w1, m)
    {
      assert Current(w, m);
    }
    MarkSettles(w1, n);
  }

  /** The SceneNode constructor: a fresh node appended to the arena, then markForUpdate. */
  function Spawn(w: World): World
    requires WorldOk(w)
  {
    Marked(World(w.nodes + [Fresh], w.dirty + [false], w.queue), |w.nodes|)
  }

  /** The constructor queues the new node, and only it, keeping the queue in step with the flags. */
  lemma SpawnPending(w: World)
    requires WorldOk(w) && Pending(w, 0)
    ensures var w' := Spawn(w);
      Pending(w', 0) && w'.dirty == w.dirty + [true] && w'.queue == w.queue + [|w.nodes|]
  {
    var id := |w.nodes|;
    var w1 := World(w.nodes + [Fresh], w.dirty + [false], w.queue);
    assert WorldOk(w1) by {
      forall m | 0 <= m < |w1.nodes|
        ensures Within(w1.nodes[m].children, |w1.nodes|)
      {
        if m < id {
          assert w1.nodes[m] == w.nodes[m];
        }
      }
    }
    forall m | 0 <= m < |w1.nodes|
      ensures w1.dirty[m] <==> m in w1.queue[0..]
    {
      if m < id {
        assert w.dirty[m] <==> m in w.queue[0..];
      }
    }
    MarkPending(w1, id);
    assert w1.nodes[id].children == [];
    assert Mark(w1.nodes, w1.dirty, w1.queue, id) == (w1.dirty[id := true], w1.queue + [id]);
    assert w1.dirty[id := true] == w.dirty + [true];
  }

  /** A new node is dirty and queued, and the state stays settled. */
  lemma SpawnSettles(w: World)
    requires Settled(w)
    ensures var w' := Spawn(w);
      && Settled(w') && w'.nodes == w.nodes + [Fresh]
      && w'.dirty == w.dirty + [true] && w'.queue == w.queue + [|w.nodes|]
  {
    var id := |w.nodes|;
    var w1 := World(w.nodes + [Fresh], w.dirty + [false], w.queue);
    assert WorldOk(w1) by {
      forall m | 0 <= m < |w1.nodes|
        ensures Within(w1.nodes[m].children, |w1.nodes|)
      {
        if m < id {
          assert w1.nodes[m] == w.nodes[m];
        }
      }
    }
    forall m, p | 0 <= m < |w1.nodes| && 0 <= p < |w1.nodes|
      ensures w1.nodes[m].parent == Some(p) <==> m in w1.nodes[p].children
    {
      if m < id && p < id {
        assert w1.nodes[m] == w.nodes[m] && w1.nodes[p] == w.nodes[p];
      } else if p < id {
        assert w1.nodes[p] == w.nodes[p];
        assert Within(w.nodes[p].children, id);
      }
    }
    forall m | 0 <= m < |w1.nodes|
      ensures w1.dirty[m] <==> m in w1.queue[0..]
    {
      if m < id {
        assert w.dirty[m] <==> m in w.queue[0..];
      }
    }
    forall m | 0 <= m < |w1.nodes| && !w1.dirty[m] && m != id
      ensures Current(w1, m)
    {
      assert Current(w, m);
    }
    MarkSettles(w1, id);
    assert w1.nodes[id].children == [];
    assert Mark(w1.nodes, w1.dirty, w1.queue, id) == (w1.dirty[id := true], w1.queue + [id]);
    assert w1.dirty[id := true] == w.dirty + [true];
  }

  /** attachObject with a SceneNode c: c's parent becomes n, and c is appended to n's children. */
  function AttachChild(w: World, n: Id, c: Id): (r: World)
    requires WorldOk(w) && n < |w.nodes| && c < |w.nodes|
    ensures WorldOk(r)
  {
    var nodes := w.nodes[c := w.nodes[c].(parent := Some(n))];
    var nodes' := nodes[n := nodes[n].(children := nodes[n].children + [c])];
    assert Within(nodes'[n].children, |w.nodes|);
    w.(nodes := nodes')
  }

  /** attachObject changes no flag and no queue entry, so it keeps the queue in step with the flags. */
  lemma AttachPending(w: World, n: Id, c: Id, i: nat)
    requires WorldOk(w) && Pending(w, i) && n < |w.nodes| && c < |w.nodes|
    ensures Pending(AttachChild(w, n, c), i)
  {
  }

  /**
   * Attaching a parentless node keeps the state settled when that node is
   * dirty, as a node is straight after its constructor.
   */
  lemma AttachSettles(w: World, n: Id, c: Id)
    requires Settled(w) && n < |w.nodes| && c < |w.nodes|
    requires w.nodes[c].parent.None? && w.dirty[c]
    ensures Settled(AttachChild(w, n, c))
  {
    AttachTree(w, n, c);
    AttachDirtyDown(w, n, c);
    AttachCurrent(w, n, c);
  }

  /** Setting c's parent to n and appending c to n's children keeps links and lists in agreement. */
  lemma AttachTree(w: World, n: Id, c: Id)
    requires WorldOk(w) && Tree(w.nodes) && n < |w.nodes| && c < |w.nodes| && w.nodes[c].parent.None?
    ensures Tree(AttachChild(w, n, c).nodes)
  {
    var w' := AttachChild(w, n, c);
    forall m, p | 0 <= m < |w.nodes| && 0 <= p < |w.nodes|
      ensures w'.nodes[m].parent == Some(p) <==> m in w'.nodes[p].children
    {
      assert w.nodes[m].parent == Some(p) <==> m in w.nodes[p].children;
      if p == n {
        assert w'.nodes[p].children == w.nodes[p].children + [c];
      }
    }
  }

  /** The new child is dirty, so a dirty parent still has only dirty children. */
  lemma AttachDirtyDown(w: World, n: Id, c: Id)
    requires WorldOk(w) && DirtyDown(w) && n < |w.nodes| && c < |w.nodes| && w.dirty[c]
    ensures DirtyDown(AttachChild(w, n, c))
  {
    var w' := AttachChild(w, n, c);
    forall p, k | 0 <= p < |w.nodes| && 0 <= k < |w'.nodes[p].children| && w'.dirty[p]
      ensures w'.dirty[w'.nodes[p].children[k]]
    {
      if p == n && k == |w.nodes[p].children| {
      } else {
        assert w'.nodes[p].children[k] == w.nodes[p].children[k];
      }
    }
  }

  /** Only c's parent changes, and c is dirty: every clean node stays up to date. */
  lemma AttachCurrent(w: World, n: Id, c: Id)
    requires WorldOk(w) && CleanCurrent(w, None) && n < |w.nodes| && c < |w.nodes| && w.dirty[c]
    ensures CleanCurrent(AttachChild(w, n, c), None)
  {
    var w' := AttachChild(w, n, c);
    forall m | 0 <= m < |w.nodes| && !w'.dirty[m]
      ensures Current(w', m)
    {
      assert Current(w, m);
    }
  }

  /**
   * attachObject does not mark the child: attaching a clean parentless node
   * sets its parent and changes neither its transforms, nor any flag, nor
   * the queue, and the node is not queued, so nothing recomputes it.
   */
  lemma AttachLeavesChild(w: World, n: Id, c: Id)
    requires WorldOk(w) && Pending(w, 0) && n < |w.nodes| && c < |w.nodes|
    requires w.nodes[c].parent.None? && !w.dirty[c]
    ensures var w' := AttachChild(w, n, c);
      && w'.nodes[c].parent == Some(n)
      && w'.nodes[c].relative == w.nodes[c].relative && w'.nodes[c].absolute == w.nodes[c].absolute
      && w'.dirty == w.dirty && w'.queue == w.queue && c !in w'.queue
  {
    assert w.queue[0..] == w.queue;
  }

  /**
   * The Scene.update loop from position i never touches a node that is not
   * queued from i on: its record and its flag come out as they went in.
   */
  lemma {:induction false} RunKeepsUnqueued(w: World, i: nat, m: Id)
    requires WorldOk(w) && m < |w.nodes|
    requires forall k :: i <= k < |w.queue| ==> w.queue[k] != m
    ensures var w' := RunQueue(w, i).w;
      m < |w'.nodes| && m < |w'.dirty| && w'.nodes[m] == w.nodes[m] && w'.dirty[m] == w.dirty[m]
    decreases |w.queue| - i
  {
    if i < |w.queue| {
      var n := w.queue[i];
      UpdateThrows(w, n);
      if UpdateOne(w, n).Some? {
        RunKeepsUnqueued(UpdateOne(w, n).value, i + 1, m);
      }
    }
  }

  /** The controllers' markForUpdate calls, in order. */
  function MarkAll(w: World, marks: seq<Id>): (r: World)
    requires WorldOk(w) && Within(marks, |w.nodes|)
    ensures r.nodes == w.nodes && WorldOk(r)
    decreases |marks|
  {
    if marks == [] then w else MarkAll(Marked(w, marks[0]), marks[1..])
  }

  /** Scene.update: the controllers' marks, then the queue run from its start. */
  function SceneUpdate(w: World, marks: seq<Id>): Outcome
    requires WorldOk(w) && Within(marks, |w.nodes|)
  {
    RunQueue(MarkAll(w, marks), 0)
  }

  lemma {:induction false} MarkAllSettles(w: World, marks: seq<Id>)
    requires Settled(w) && Within(marks, |w.nodes|)
    ensures Settled(MarkAll(w, marks))
    decreases |marks|
  {
    if marks != [] {
      MarkSettles(w, marks[0]);
      MarkAllSettles(Marked(w, marks[0]), marks[1..]);
    }
  }

  /**
   * Scene.update from a settled state: when it does not throw, every node
   * is clean and its transforms are what SceneNode.update computes from its
   * own fields and its parent's absolute transform; the queue is empty.
   */
  lemma UpdateSettles(w: World, marks: seq<Id>)
    requires Settled(w) && Within(marks, |w.nodes|)
    ensures SceneUpdate(w, marks).Finished? ==>
      var w' := SceneUpdate(w, marks).w;
      && Settled(w') && w'.queue == [] && |w'.nodes| == |w.nodes|
      && forall m :: 0 <= m < |w'.nodes| ==> !w'.dirty[m] && Current(w', m)
  {
    MarkAllSettles(w, marks);
    RunSettles(MarkAll(w, marks), 0);
  }

  /**
   * Scene.update's loop keeps "dirty exactly when queued, each node once"
   * from any state, settled or not: when it runs to the end the queue is
   * empty and every node is clean.
   */
  lemma {:induction false} RunPending(w: World, i: nat)
    requires WorldOk(w) && Pending(w, i)
    ensures RunQueue(w, i).Finished? ==>
      var w' := RunQueue(w, i).w;
      && WorldOk(w') && Pending(w', 0) && w'.queue == [] && |w'.nodes| == |w.nodes|
      && forall m :: 0 <= m < |w'.dirty| ==> !w'.dirty[m]
    decreases |w.queue| - i
  {
    if i >= |w.queue| {
      assert w.queue[i..] == [];
    } else if UpdateOne(w, w.queue[i]).Some? {
      var n := w.queue[i];
      var w1 := UpdateOne(w, n).value;
      assert w.queue[i..] == [n] + w.queue[i + 1..];
      forall m | 0 <= m < |w.nodes|
        ensures w1.dirty[m] <==> m in w.queue[i + 1..]
      {
        if m == n {
          assert n !in w.queue[i + 1..] by {
            forall l | i + 1 <= l < |w.queue| ensures w.queue[l] != n { }
          }
        }
      }
      RunPending(w1, i + 1);
    }
  }

  /** The controllers' marks keep "dirty exactly when queued, each node once". */
  lemma {:induction false} MarkAllPending(w: World, marks: seq<Id>)
    requires WorldOk(w) && Pending(w, 0) && Within(marks, |w.nodes|)
    ensures Pending(MarkAll(w, marks), 0)
    decreases |marks|
  {
    if marks != [] {
      MarkPending(w, marks[0]);
      MarkAllPending(Marked(w, marks[0]), marks[1..]);
    }
  }

  /**
   * Scene.update from any state whose queue holds exactly the dirty nodes,
   * each once (attaching a clean or re-parented node included): when it does
   * not throw, the queue is empty, every node is clean, and that invariant
   * holds again for the next interval.
   */
  lemma UpdatePending(w: World, marks: seq<Id>)
    requires WorldOk(w) && Pending(w, 0) && Within(marks, |w.nodes|)
    ensures SceneUpdate(w, marks).Finished? ==>
      var w' := SceneUpdate(w, marks).w;
      && WorldOk(w') && Pending(w', 0) && w'.queue == [] && |w'.nodes| == |w.nodes|
      && forall m :: 0 <= m < |w'.dirty| ==> !w'.dirty[m]
  {
    MarkAllPending(w, marks);
    RunPending(MarkAll(w, marks), 0);
  }

  // ---------------------------------------------------------------------
  // renderNode
  // ---------------------------------------------------------------------

  /** A rank that falls from parent to child: the child lists form no cycle, so renderNode terminates. */
  predicate Ranked(nodes: seq<Node>, rank: seq<nat>) {
    && |rank| == |nodes| && Closed(nodes)
    && forall p :: 0 <= p < |nodes| ==> Below(nodes[p].children, rank, rank[p])
  }

  /** Every node of cs has rank below `bound`. */
  predicate Below(cs: seq<Id>, rank: seq<nat>, bound: nat) {
    forall k :: 0 <= k < |cs| ==> cs[k] < |rank| && rank[cs[k]] < bound
  }

  /** The nodes renderNode(n) visits, in order: n, then each child's visit in list order. */
  function Visit(nodes: seq<Node>, rank: seq<nat>, n: Id): (r: seq<Id>)
    requires Ranked(nodes, rank) && n < |nodes|
    ensures Within(r, |nodes|)
    decreases rank[n], 1
  {
    [n] + VisitEach(nodes, rank, nodes[n].children, rank[n])
  }

  /** The loop of renderNode over cs. */
  function VisitEach(nodes: seq<Node>, rank: seq<nat>, cs: seq<Id>, bound: nat): (r: seq<Id>)
    requires Ranked(nodes, rank) && Below(cs, rank, bound)
    ensures Within(r, |nodes|)
    decreases bound, 0, |cs|
  {
    if cs == [] then []
    else VisitEach(nodes, rank, cs[..|cs| - 1], bound) + Visit(nodes, rank, cs[|cs| - 1])
  }

  /** Every child of a node of a is in a. */
  predicate ChildrenIn(nodes: seq<Node>, a: seq<Id>) {
    forall k, j :: 0 <= k < |a| && a[k] < |nodes| && 0 <= j < |nodes[a[k]].children| ==>
      nodes[a[k]].children[j] in a
  }

  /**
   * renderNode visits n first, every node after it is a child of a node
   * visited before it, and every child of a visited node is visited: the
   * visit is n and its descendants, each parent before its children.
   */
  lemma {:induction false} VisitOrder(nodes: seq<Node>, rank: seq<nat>, n: Id)
    requires Ranked(nodes, rank) && n < |nodes|
    ensures var v := Visit(nodes, rank, n); v[0] == n && Chain(nodes, v) && ChildrenIn(nodes, v)
    decreases rank[n], 1
  {
    var cs := nodes[n].children;
    var e := VisitEach(nodes, rank, cs, rank[n]);
    VisitEachOrder(nodes, rank, cs, rank[n]);
    ChainAfterParent(nodes, n, e);
    ChildrenInCons(nodes, n, e);
  }

  /** n followed by a visit holding n's children and closed under children: closed under children. */
  lemma ChildrenInCons(nodes: seq<Node>, n: Id, e: seq<Id>)
    requires n < |nodes| && ChildrenIn(nodes, e)
    requires forall j :: 0 <= j < |nodes[n].children| ==> nodes[n].children[j] in e
    ensures ChildrenIn(nodes, [n] + e)
  {
    var v := [n] + e;
    forall k, j | 0 <= k < |v| && v[k] < |nodes| && 0 <= j < |nodes[v[k]].children|
      ensures nodes[v[k]].children[j] in v
    {
      if k == 0 {
        assert nodes[n].children[j] in e;
      } else {
        var m := e[k - 1];
        assert v[k] == m;
        assert nodes[m].children[j] in e;
      }
    }
  }

  lemma {:induction false} VisitEachOrder(nodes: seq<Node>, rank: seq<nat>, cs: seq<Id>, bound: nat)
    requires Ranked(nodes, rank) && Below(cs, rank, bound)
    ensures var e := VisitEach(nodes, rank, cs, bound);
      && ChainFrom(nodes, e, cs) && ChildrenIn(nodes, e)
      && forall k :: 0 <= k < |cs| ==> cs[k] in e
    decreases bound, 0, |cs|
  {
    if cs != [] {
      var init, last := cs[..|cs| - 1], cs[|cs| - 1];
      var e1, e2 := VisitEach(nodes, rank, init, bound), Visit(nodes, rank, last);
      VisitEachOrder(nodes, rank, init, bound);
      VisitOrder(nodes, rank, last);
      ChainsJoin(nodes, e1, e2, init, cs);
      ChildrenInJoin(nodes, e1, e2);
      CoversJoin(e1, e2, init, cs);
    }
  }

  lemma ChildrenInJoin(nodes: seq<Node>, e1: seq<Id>, e2: seq<Id>)
    requires ChildrenIn(nodes, e1) && ChildrenIn(nodes, e2)
    ensures ChildrenIn(nodes, e1 + e2)
  {
    var e := e1 + e2;
    forall k, j | 0 <= k < |e| && e[k] < |nodes| && 0 <= j < |nodes[e[k]].children|
      ensures nodes[e[k]].children[j] in e
    {
      if k < |e1| {
        assert e[k] == e1[k];
        assert nodes[e1[k]].children[j] in e1;
      } else {
        assert e[k] == e2[k - |e1|];
        assert nodes[e2[k - |e1|]].children[j] in e2;
      }
    }
  }

  lemma CoversJoin(e1: seq<Id>, e2: seq<Id>, init: seq<Id>, cs: seq<Id>)
    requires |cs| > 0 && init == cs[..|cs| - 1] && |e2| > 0 && e2[0] == cs[|cs| - 1]
    requires forall k :: 0 <= k < |init| ==> init[k] in e1
    ensures forall k :: 0 <= k < |cs| ==> cs[k] in e1 + e2
  {
    forall k | 0 <= k < |cs|
      ensures cs[k] in e1 + e2
    {
      if k < |init| {
        assert init[k] in e1;
      } else {
        assert (e1 + e2)[|e1|] == cs[k];
      }
    }
  }

  /** A chain from init, then a chain headed by the last of cs: a chain from cs. */
  lemma ChainsJoin(nodes: seq<Node>, e1: seq<Id>, e2: seq<Id>, init: seq<Id>, cs: seq<Id>)
    requires |cs| > 0 && init == cs[..|cs| - 1]
    requires ChainFrom(nodes, e1, init) && |e2| > 0 && e2[0] == cs[|cs| - 1] && Chain(nodes, e2)
    ensures ChainFrom(nodes, e1 + e2, cs)
  {
    var e := e1 + e2;
    forall k | 0 <= k < |e|
      ensures e[k] in cs || Linked(nodes, e, k)
    {
      if k < |e1| {
        if e1[k] in init {
          assert e[k] == e1[k];
        } else {
          LinkedPrefix(nodes, e1, e2, k);
        }
      } else if k == |e1| {
        assert e[k] == cs[|cs| - 1];
      } else {
        LinkedShift(nodes, e1, e2, k - |e1|);
      }
    }
  }

  /** One call of an object's render method, with the matrix camera x absolute. */
  datatype Draw = Draw(node: Id, payload: nat, transform: Transform)

  /** The draw renderNode makes at node n, if its object has a render method. */
  function DrawAt(n: Id, node: Node, camera: Transform): seq<Draw> {
    if node.payload.Some? && node.payload.value.renders
    then [Draw(n, node.payload.value.id, Compose(camera, node.absolute))] else []
  }

  /** The draws renderNode makes while visiting vs: the nodes whose object has a render method. */
  function Draws(nodes: seq<Node>, vs: seq<Id>, camera: Transform): seq<Draw>
    requires Within(vs, |nodes|)
  {
    if vs == [] then []
    else
      var n := vs[|vs| - 1];
      var node := nodes[n];
      Draws(nodes, vs[..|vs| - 1], camera) + DrawAt(n, node, camera)
  }

  lemma {:induction false} DrawsAppend(nodes: seq<Node>, a: seq<Id>, b: seq<Id>, camera: Transform)
    requires Within(a, |nodes|) && Within(b, |nodes|)
    ensures Within(a + b, |nodes|)
    ensures Draws(nodes, a + b, camera) == Draws(nodes, a, camera) + Draws(nodes, b, camera)
    decreases |b|
  {
    if b == [] {
      assert a + b == a;
    } else {
      var init := b[..|b| - 1];
      assert (a + b)[..|a + b| - 1] == a + init;
      DrawsAppend(nodes, a, init, camera);
    }
  }
}

/**
 * The objects of scene.js. Every SceneNode lives in one NodeArena, which
 * also holds the static SceneNode.queue; a node is named by its index in
 * the arena. Each method is proved against the functions of SceneTree.
 */
module SceneGraph {
  import opened SceneTree

  /** What attachObject is given: another SceneNode, or any other object. */
  datatype Attachment = ChildNode(id: Id) | Object(payload: Payload)

  class NodeArena {
    /** The fields of every SceneNode, by index. */
    var nodes: seq<Node>
    /** needs_update of every SceneNode, by index. */
    var dirty: seq<bool>
    /** SceneNode.queue. */
    var queue: seq<Id>
    /** obj.sceneNode of every object attached with attachObject, by object id. */
    var owner: map<nat, Id>

    function State(): World
      reads this
    {
      World(nodes, dirty, queue)
    }

    predicate Valid()
      reads this
    {
      WorldOk(State())
    }

    /** No nodes yet, and an empty queue. */
    constructor()
      ensures Valid() && State() == World([], [], []) && owner == map[]
    {
      nodes, dirty, queue, owner := [], [], [], map[];
    }

    /** SceneNode.queueUpdate: append to the queue. */
    method QueueUpdate(n: Id)
      modifies this
      ensures queue == old(queue) + [n]
      ensures nodes == old(nodes) && dirty == old(dirty) && owner == old(owner)
    {
      queue := queue + [n];
    }

    /** SceneNode.canIgnoreUpdate: never. */
    method CanIgnoreUpdate(n: Id) returns (ignore: bool)
      ensures !ignore
    {
      ignore := false;
    }

    /**
     * The SceneNode constructor: a node with no children, no object and
     * no parent, at the origin with unit scale, identity orientation and
     * identity transforms, visible; then markForUpdate.
     */
    method NewNode() returns (id: Id)
      requires Valid()
      modifies this
      ensures Valid() && id == old(|nodes|)
      ensures State() == Spawn(old(State())) && owner == old(owner)
    {
      id := |nodes|;
      nodes := nodes + [Fresh];
      dirty := dirty + [false];
      MarkForUpdate(id);
    }

    /**
     * markForUpdate: return at once when the node is already dirty;
     * otherwise set it dirty, queue it, and mark each child in order.
     */
    method MarkForUpdate(n: Id)
      requires Valid() && n < |nodes|
      modifies this
      ensures Valid() && State() == Marked(old(State()), n) && owner == old(owner)
      decreases |Clean(dirty)|
    {
      if dirty[n] {
        return;
      }
      dirty := dirty[n := true];
      assert Clean(dirty) == Clean(old(dirty)) - {n};
      QueueUpdate(n);
      var children := nodes[n].children;
      assert children[0..] == children;
      var i := 0;
      while i < |children|
        invariant 0 <= i <= |children|
        invariant Valid() && nodes == old(nodes) && owner == old(owner)
        invariant |Clean(dirty)| < |Clean(old(dirty))|
        invariant MarkEach(nodes, dirty, queue, children[i..]) == Mark(nodes, old(dirty), old(queue), n)
      {
        var child := children[i];
        var ignore := CanIgnoreUpdate(child);
        if !ignore {
          MarkForUpdate(child);
        }
        assert children[i..][1..] == children[i + 1..];
        i := i + 1;
      }
    }

    /**
     * SceneNode.update: throws when the parent still needs an update;
     * otherwise rebuilds the relative transform, composes the absolute one
     * with the parent's (or copies it for a root) and clears needs_update.
     */
    method UpdateNode(n: Id) returns (threw: bool)
      requires Valid() && n < |nodes|
      modifies this
      ensures Valid() && owner == old(owner)
      ensures threw == UpdateOne(old(State()), n).None?
      ensures threw ==> State() == old(State())
      ensures !threw ==> State() == UpdateOne(old(State()), n).value
    {
      var parent := nodes[n].parent;
      if parent.Some? && dirty[parent.value] {
        return true;
      }
      var relative := LocalOf(nodes[n]);
      nodes := nodes[n := nodes[n].(relative := relative)];
      if parent.Some? {
        nodes := nodes[n := nodes[n].(absolute := Compose(nodes[parent.value].absolute, relative))];
      } else {
        nodes := nodes[n := nodes[n].(absolute := relative)];
      }
      dirty := dirty[n := false];
      threw := false;
    }

    /** setPosition: copy the vector into the position, then markForUpdate. */
    method SetPosition(n: Id, vec: Vec3)
      requires Valid() && n < |nodes|
      modifies this
      ensures Valid() && owner == old(owner)
      ensures State() == Touch(old(State()), n, vec, old(nodes[n].scale), old(nodes[n].orientation))
    {
      nodes := nodes[n := nodes[n].(position := vec)];
      MarkForUpdate(n);
    }

    /** translate: add the vector to the position, then markForUpdate. */
    method Translate(n: Id, vec: Vec3)
      requires Valid() && n < |nodes|
      modifies this
      ensures Valid() && owner == old(owner)
      ensures State() == Touch(old(State()), n, Add(old(nodes[n].position), vec), old(nodes[n].scale),
                               old(nodes[n].orientation))
    {
      nodes := nodes[n := nodes[n].(position := Add(nodes[n].position, vec))];
      MarkForUpdate(n);
    }

    /** setScale: copy the vector into the scale, then markForUpdate. */
    method SetScale(n: Id, vec: Vec3)
      requires Valid() && n < |nodes|
      modifies this
      ensures Valid() && owner == old(owner)
      ensures State() == Touch(old(State()), n, old(nodes[n].position), vec, old(nodes[n].orientation))
    {
      nodes := nodes[n := nodes[n].(scale := vec)];
      MarkForUpdate(n);
    }

    /** setOrientation: copy the quaternion into the orientation, then markForUpdate. */
    method SetOrientation(n: Id, quat: Quat)
      requires Valid() && n < |nodes|
      modifies this
      ensures Valid() && owner == old(owner)
      ensures State() == Touch(old(State()), n, old(nodes[n].position), old(nodes[n].scale), quat)
    {
      nodes := nodes[n := nodes[n].(orientation := quat)];
      MarkForUpdate(n);
    }

    /** rotate: turn the orientation by angle about axis, then markForUpdate. */
    method Rotate(n: Id, angle: real, axis: Vec3)
      requires Valid() && n < |nodes|
      modifies this
      ensures Valid() && owner == old(owner)
      ensures State() == Touch(old(State()), n, old(nodes[n].position), old(nodes[n].scale),
                               Turn(old(nodes[n].orientation), angle, axis))
    {
      nodes := nodes[n := nodes[n].(orientation := Turn(nodes[n].orientation, angle, axis))];
      MarkForUpdate(n);
    }

    /**
     * attachObject: a SceneNode becomes a child (its parent set, appended
     * to the children); any other object becomes the node's object and
     * records the node as its owner. Nothing is marked for update.
     */
    method AttachObject(n: Id, obj: Attachment)
      requires Valid() && n < |nodes|
      requires obj.ChildNode? ==> obj.id < |nodes|
      modifies this
      ensures Valid() && dirty == old(dirty) && queue == old(queue)
      ensures obj.ChildNode? ==> State() == AttachChild(old(State()), n, obj.id) && owner == old(owner)
      ensures obj.Object? ==>
        && nodes == old(nodes)[n := old(nodes[n]).(payload := Some(obj.payload))]
        && owner == old(owner)[obj.payload.id := n]
    {
      match obj
      case ChildNode(c) =>
        nodes := nodes[c := nodes[c].(parent := Some(n))];
        nodes := nodes[n := nodes[n].(children := nodes[n].children + [c])];
      case Object(o) =>
        nodes := nodes[n := nodes[n].(payload := Some(o))];
        owner := owner[o.id := n];
    }
  }

  class Scene {
    /** The arena holding every node and the update queue. */
    const arena: NodeArena
    var root: Id

    /** Scene(root): the given root, or a new SceneNode. */
    constructor(arena: NodeArena, root: Option<Id>)
      requires arena.Valid() && (root.Some? ==> root.value < |arena.nodes|)
      modifies arena
      ensures this.arena == arena && arena.Valid() && arena.owner == old(arena.owner)
      ensures root.Some? ==> this.root == root.value && arena.State() == old(arena.State())
      ensures root.None? ==> this.root == old(|arena.nodes|) && arena.State() == Spawn(old(arena.State()))
    {
      this.arena := arena;
      if root.Some? {
        this.root := root.value;
      } else {
        var id := arena.NewNode();
        this.root := id;
      }
    }

    /**
     * Scene.update: the controllers' marks, then SceneNode.update on each
     * queued node in order; a throw ends it with the queue as it is,
     * otherwise the queue is emptied.
     */
    method Update(marks: seq<Id>) returns (threw: bool)
      requires arena.Valid() && Within(marks, |arena.nodes|)
      modifies arena
      ensures arena.Valid() && arena.owner == old(arena.owner)
      ensures var outcome := SceneUpdate(old(arena.State()), marks);
        threw == outcome.Threw? && arena.State() == outcome.w
    {
      ghost var start := arena.State();
      var i := 0;
      while i < |marks|
        invariant 0 <= i <= |marks|
        invariant arena.Valid() && |arena.nodes| == |start.nodes| && arena.owner == old(arena.owner)
        invariant MarkAll(arena.State(), marks[i..]) == MarkAll(start, marks)
      {
        arena.MarkForUpdate(marks[i]);
        assert marks[i..][1..] == marks[i + 1..];
        i := i + 1;
      }
      ghost var marked := arena.State();
      i := 0;
      while i < |arena.queue|
        invariant arena.Valid() && arena.owner == old(arena.owner)
        invariant RunQueue(arena.State(), i) == RunQueue(marked, 0)
      {
        var t := arena.UpdateNode(arena.queue[i]);
        if t {
          return true;
        }
        i := i + 1;
      }
      arena.queue := [];
      threw := false;
    }

    /**
     * renderNode: draw the node's object, if it has a render method, with
     * camera x absolute; then render each child in list order.
     */
    method RenderNode(n: Id, camera: Transform, ghost rank: seq<nat>) returns (draws: seq<Draw>)
      requires Ranked(arena.nodes, rank) && n < |arena.nodes|
      ensures draws == Draws(arena.nodes, Visit(arena.nodes, rank, n), camera)
      decreases rank[n]
    {
      var nodes := arena.nodes;
      var node := nodes[n];
      if node.payload.Some? && node.payload.value.renders {
        draws := [Draw(n, node.payload.value.id, Compose(camera, node.absolute))];
      } else {
        draws := [];
      }
      RenderStart(nodes, rank, n, camera);
      var children := node.children;
      var i := 0;
      while i < |children|
        invariant 0 <= i <= |children|
        invariant draws == DrawnThrough(nodes, rank, n, i, camera)
      {
        var d := RenderNode(children[i], camera, rank);
        RenderStep(nodes, rank, n, i, camera);
        draws := draws + d;
        i := i + 1;
      }
      RenderDone(nodes, rank, n, camera);
    }

    /** Scene.render: renderNode from the root with the camera's view. */
    method Render(view: Transform, ghost rank: seq<nat>) returns (draws: seq<Draw>)
      requires Ranked(arena.nodes, rank) && root < |arena.nodes|
      ensures draws == Draws(arena.nodes, Visit(arena.nodes, rank, root), view)
    {
      draws := RenderNode(root, view, rank);
    }
  }

  /** What renderNode(n) has drawn once its loop has rendered the first i children. */
  function DrawnThrough(nodes: seq<Node>, rank: seq<nat>, n: Id, i: nat, camera: Transform): seq<Draw>
    requires Ranked(nodes, rank) && n < |nodes| && i <= |nodes[n].children|
  {
    var cs := nodes[n].children;
    assert Below(cs[..i], rank, rank[n]);
    Draws(nodes, [n] + VisitEach(nodes, rank, cs[..i], rank[n]), camera)
  }

  /** Before the loop, only the node's own draw. */
  lemma RenderStart(nodes: seq<Node>, rank: seq<nat>, n: Id, camera: Transform)
    requires Ranked(nodes, rank) && n < |nodes|
    ensures DrawnThrough(nodes, rank, n, 0, camera) == DrawAt(n, nodes[n], camera)
  {
    var cs := nodes[n].children;
    assert [n] + VisitEach(nodes, rank, cs[..0], rank[n]) == [n];
    assert [n][..0] == [];
    assert Draws(nodes, [n], camera) == Draws(nodes, [], camera) + DrawAt(n, nodes[n], camera);
  }

  /** Rendering child i appends the draws of its visit. */
  lemma RenderStep(nodes: seq<Node>, rank: seq<nat>, n: Id, i: nat, camera: Transform)
    requires Ranked(nodes, rank) && n < |nodes| && i < |nodes[n].children|
    ensures DrawnThrough(nodes, rank, n, i + 1, camera)
      == DrawnThrough(nodes, rank, n, i, camera) + Draws(nodes, Visit(nodes, rank, nodes[n].children[i]), camera)
  {
    var cs := nodes[n].children;
    assert cs[..i + 1][..i] == cs[..i];
    var before := [n] + VisitEach(nodes, rank, cs[..i], rank[n]);
    assert [n] + VisitEach(nodes, rank, cs[..i + 1], rank[n]) == before + Visit(nodes, rank, cs[i]);
    DrawsAppend(nodes, before, Visit(nodes, rank, cs[i]), camera);
  }

  /** After the loop, the draws of the whole visit. */
  lemma RenderDone(nodes: seq<Node>, rank: seq<nat>, n: Id, camera: Transform)
    requires Ranked(nodes, rank) && n < |nodes|
    ensures DrawnThrough(nodes, rank, n, |nodes[n].children|, camera) == Draws(nodes, Visit(nodes, rank, n), camera)
  {
    var cs := nodes[n].children;
    assert cs[..|cs|] == cs;
  }
}

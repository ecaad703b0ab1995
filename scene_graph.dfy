/** The transform hierarchy: every entity's Transform component, kept in an arena keyed by the owning
    entity's id. Each node holds its local position, Euler rotation (degrees) and scale, a parent link,
    a set of children, the cached model matrix and the dirty / changed / deleted flags.

    The parent links and the children sets are kept independently, as in the component, which never
    removes a re-parented node from its old parent's children. Two ghost measures stand in for the
    acyclicity every recursive walk relies on: a depth that every parent link lowers (for the reads
    along the ancestor chain) and a height that every children link lowers (for MarkDirty and
    Invalidate, which walk down). */
module SceneGraph {
  import opened Wrappers
  import opened Vectors
  import opened Matrices
  import opened Angles

  /** A transform is identified by the entity that owns it. */
  type NodeId = int

  datatype Transform = Transform(
    localPosition: Vec3,
    localRotation: Vec3,
    localScale: Vec3,
    parent: Option<NodeId>,
    children: set<NodeId>,
    modelMatrix: Matrix,
    dirty: bool,
    positionChanged: bool,
    rotationChanged: bool,
    deleted: bool)

  type Arena = map<NodeId, Transform>
  /** A ghost measure on nodes, used to show which links are cycle-free; a node it does not list
      has level 0. */
  type Measure = map<NodeId, nat>

  function Level(m: Measure, x: NodeId): nat
  {
    if x in m then m[x] else 0
  }

  /** depth witnesses that parent links are cycle-free: each points at a node of smaller depth. */
  ghost predicate ParentsRanked(ts: Arena, depth: Measure)
  {
    forall id :: id in ts && ts[id].parent.Some? ==>
      ts[id].parent.value in ts && Level(depth, ts[id].parent.value) < Level(depth, id)
  }

  /** height witnesses that children links are cycle-free: each points at a node of smaller height. */
  ghost predicate ChildrenRanked(ts: Arena, height: Measure)
  {
    forall id, c :: id in ts && c in ts[id].children ==> c in ts && Level(height, c) < Level(height, id)
  }

  /** Neither the parent links nor the children links contain a cycle, so every walk that follows
      one kind of link ends. */
  ghost predicate Acyclic(ts: Arena)
  {
    (exists depth :: ParentsRanked(ts, depth)) && (exists height :: ChildrenRanked(ts, height))
  }

  /** ts and ts' have the same nodes, parent links and children sets. */
  ghost predicate SameLinks(ts: Arena, ts': Arena)
  {
    && ts'.Keys == ts.Keys
    && (forall x :: x in ts ==> ts'[x].parent == ts[x].parent && ts'[x].children == ts[x].children)
  }

  lemma SameLinksRanked(depth: Measure, height: Measure, ts: Arena, ts': Arena)
    requires ParentsRanked(ts, depth) && ChildrenRanked(ts, height) && SameLinks(ts, ts')
    ensures ParentsRanked(ts', depth) && ChildrenRanked(ts', height)
  {
    forall id, c | id in ts' && c in ts'[id].children
      ensures c in ts' && Level(height, c) < Level(height, id)
    {
      assert c in ts[id].children;
    }
  }

  /** The node and everything reachable from it through children links. */
  ghost function Subtree(height: Measure, ts: Arena, id: NodeId): (s: set<NodeId>)
    requires ChildrenRanked(ts, height) && id in ts
    ensures id in s && s <= ts.Keys
    decreases Level(height, id)
  {
    {id} + (set c, x | c in ts[id].children && x in Subtree(height, ts, c) :: x)
  }

  /** S has no children link leaving it. */
  ghost predicate Closed(ts: Arena, S: set<NodeId>)
  {
    forall x, c :: x in S && x in ts && c in ts[x].children ==> c in S
  }

  lemma SubtreeOfChild(height: Measure, ts: Arena, id: NodeId, c: NodeId)
    requires ChildrenRanked(ts, height) && id in ts && c in ts[id].children
    ensures Subtree(height, ts, c) <= Subtree(height, ts, id)
  {
    var below := set c', x' | c' in ts[id].children && x' in Subtree(height, ts, c') :: x';
    assert Subtree(height, ts, id) == {id} + below;
    forall x | x in Subtree(height, ts, c) ensures x in below {
      assert c in ts[id].children && x in Subtree(height, ts, c);
    }
  }

  /** Every node of a subtree other than its root is lower than the root. */
  lemma {:induction false} SubtreeRanks(height: Measure, ts: Arena, id: NodeId)
    requires ChildrenRanked(ts, height) && id in ts
    ensures forall x :: x in Subtree(height, ts, id) ==> x == id || Level(height, x) < Level(height, id)
    decreases Level(height, id)
  {
    forall x | x in Subtree(height, ts, id) && x != id ensures Level(height, x) < Level(height, id) {
      var c :| c in ts[id].children && x in Subtree(height, ts, c);
      SubtreeRanks(height, ts, c);
    }
  }

  /** A subtree is closed under children links ... */
  lemma {:induction false} SubtreeClosed(height: Measure, ts: Arena, id: NodeId)
    requires ChildrenRanked(ts, height) && id in ts
    ensures Closed(ts, Subtree(height, ts, id))
    decreases Level(height, id)
  {
    forall x, c | x in Subtree(height, ts, id) && x in ts && c in ts[x].children
      ensures c in Subtree(height, ts, id)
    {
      if x == id {
        SubtreeOfChild(height, ts, id, c);
      } else {
        var d :| d in ts[id].children && x in Subtree(height, ts, d);
        SubtreeClosed(height, ts, d);
        SubtreeOfChild(height, ts, id, d);
      }
    }
  }

  /** ... and it is the least such set containing its root. */
  lemma {:induction false} SubtreeMinimal(height: Measure, ts: Arena, id: NodeId, S: set<NodeId>)
    requires ChildrenRanked(ts, height) && id in ts && id in S && Closed(ts, S)
    ensures Subtree(height, ts, id) <= S
    decreases Level(height, id)
  {
    forall c | c in ts[id].children ensures Subtree(height, ts, c) <= S {
      SubtreeMinimal(height, ts, c, S);
    }
  }

  /** The subtree depends only on the children links, not on the measure chosen. */
  lemma {:induction false} SubtreeSameLinks(height: Measure, ts: Arena, height': Measure, ts': Arena, id: NodeId)
    requires ChildrenRanked(ts, height) && ChildrenRanked(ts', height') && SameLinks(ts, ts') && id in ts
    ensures Subtree(height', ts', id) == Subtree(height, ts, id)
    decreases Level(height, id)
  {
    var kids := ts[id].children;
    assert kids == ts'[id].children;
    assert forall c :: c in kids ==> c in ts && c in ts';
    forall c | c in kids
      ensures Subtree(height', ts', c) == Subtree(height, ts, c)
    {
      SubtreeSameLinks(height, ts, height', ts', c);
    }
    var below := set c, x | c in kids && x in Subtree(height, ts, c) :: x;
    var below' := set c, x | c in kids && x in Subtree(height', ts', c) :: x;
    assert below == below';
  }


  /** The arena with the dirty flag raised on every node of S and nothing else changed. */
  function SetDirty(ts: Arena, S: set<NodeId>): Arena
  {
    map x | x in ts :: if x in S then ts[x].(dirty := true) else ts[x]
  }

  /** Raising flags twice is raising them on the union: the order children are visited in does not matter. */
  lemma SetDirtyUnion(ts: Arena, A: set<NodeId>, B: set<NodeId>)
    ensures SetDirty(SetDirty(ts, A), B) == SetDirty(ts, A + B)
  {
  }

  /** Raising dirty flags keeps every link, both measures and therefore every subtree. */
  lemma SetDirtyKeepsLinks(depth: Measure, height: Measure, ts: Arena, S: set<NodeId>, c: NodeId)
    requires ParentsRanked(ts, depth) && ChildrenRanked(ts, height) && c in ts
    ensures SameLinks(ts, SetDirty(ts, S))
    ensures ParentsRanked(SetDirty(ts, S), depth) && ChildrenRanked(SetDirty(ts, S), height)
    ensures Subtree(height, SetDirty(ts, S), c) == Subtree(height, ts, c)
  {
    var ts' := SetDirty(ts, S);
    assert SameLinks(ts, ts');
    SameLinksRanked(depth, height, ts, ts');
    SubtreeSameLinks(height, ts, height, ts', c);
  }

  /** The nodes of V, and the node root, whose parent link points at x. */
  function Orphans(ts: Arena, V: set<NodeId>, root: NodeId, x: NodeId): set<NodeId>
  {
    set y | y in ts && (y == root || y in V) && ts[y].parent == Some(x)
  }

  /** The arena after invalidating the nodes of V from root down: each node of V ends with no
      children and flagged deleted, and every other node loses from its children those nodes of V,
      and root, whose parent it is (each of them removed itself from its parent's children). */
  function Detached(ts: Arena, V: set<NodeId>, root: NodeId): Arena
  {
    map x | x in ts ::
      if x in V then ts[x].(children := {}, deleted := true)
      else ts[x].(children := ts[x].children - Orphans(ts, V, root, x))
  }

  /** Detaching keeps the height measure: children sets only shrink. */
  lemma DetachedRanked(height: Measure, ts: Arena, V: set<NodeId>, root: NodeId)
    requires ChildrenRanked(ts, height)
    ensures ChildrenRanked(Detached(ts, V, root), height)
  {
    var ts1 := Detached(ts, V, root);
    forall id, c | id in ts1 && c in ts1[id].children
      ensures c in ts1 && Level(height, c) < Level(height, id)
    {
      assert c in ts[id].children;
    }
  }

  /** Invalidating W from c, after V from root, is invalidating V and W together from root. */
  lemma DetachedCompose(ts: Arena, V: set<NodeId>, root: NodeId, W: set<NodeId>, c: NodeId)
    requires c in W
    ensures Detached(Detached(ts, V, root), W, c) == Detached(ts, V + W, root)
  {
    var ts1 := Detached(ts, V, root);
    forall x | x in ts ensures Orphans(ts1, W, c, x) == Orphans(ts, W, c, x) {
    }
    forall x | x in ts ensures Detached(ts1, W, c)[x] == Detached(ts, V + W, root)[x] {
      assert Orphans(ts, V + W, root, x) == Orphans(ts, V, root, x) + Orphans(ts, W, c, x);
    }
  }

  /** Children sets that only shrink, and only by nodes of a closed set V, leave the nodes reachable
      from c the same up to V. */
  lemma {:induction false} SubtreeShrunk(height: Measure, ts: Arena, ts1: Arena, V: set<NodeId>, c: NodeId)
    requires ChildrenRanked(ts, height) && ChildrenRanked(ts1, height) && c in ts && Closed(ts, V)
    requires ts1.Keys == ts.Keys
    requires forall x :: x in ts ==> ts1[x].children <= ts[x].children
    requires forall x, d :: x in Subtree(height, ts, c) && x !in V && d in ts[x].children && d !in ts1[x].children ==> d in V
    ensures V + Subtree(height, ts1, c) == V + Subtree(height, ts, c)
    decreases Level(height, c)
  {
    if c in V {
      assert Closed(ts1, V) by {
        forall x, y | x in V && x in ts1 && y in ts1[x].children ensures y in V {
          assert y in ts[x].children;
        }
      }
      SubtreeMinimal(height, ts1, c, V);
      SubtreeMinimal(height, ts, c, V);
    } else {
      forall d | d in ts[c].children
        ensures V + Subtree(height, ts1, d) == V + Subtree(height, ts, d)
      {
        SubtreeOfChild(height, ts, c, d);
        SubtreeShrunk(height, ts, ts1, V, d);
      }
      SubtreeShrunkNode(height, ts, ts1, V, c);
    }
  }

  /** The step of SubtreeShrunk at a node outside V whose children's subtrees agree up to V. */
  lemma SubtreeShrunkNode(height: Measure, ts: Arena, ts1: Arena, V: set<NodeId>, c: NodeId)
    requires ChildrenRanked(ts, height) && ChildrenRanked(ts1, height) && c in ts && c !in V && Closed(ts, V)
    requires ts1.Keys == ts.Keys && ts1[c].children <= ts[c].children
    requires forall d :: d in ts[c].children && d !in ts1[c].children ==> d in V
    requires forall d :: d in ts[c].children ==> V + Subtree(height, ts1, d) == V + Subtree(height, ts, d)
    ensures V + Subtree(height, ts1, c) == V + Subtree(height, ts, c)
  {
    forall x | x in Subtree(height, ts, c) && x !in V ensures x in Subtree(height, ts1, c) {
      ShrunkKeeps(height, ts, ts1, V, c, x);
    }
    forall x | x in Subtree(height, ts1, c) && x !in V ensures x in Subtree(height, ts, c) {
      ShrunkAddsNothing(height, ts, ts1, V, c, x);
    }
  }

  /** A node outside V below c in ts is still below c in ts1. */
  lemma ShrunkKeeps(height: Measure, ts: Arena, ts1: Arena, V: set<NodeId>, c: NodeId, x: NodeId)
    requires ChildrenRanked(ts, height) && ChildrenRanked(ts1, height) && c in ts && c !in V && Closed(ts, V)
    requires ts1.Keys == ts.Keys
    requires forall d :: d in ts[c].children && d !in ts1[c].children ==> d in V
    requires forall d :: d in ts[c].children ==> V + Subtree(height, ts1, d) == V + Subtree(height, ts, d)
    requires x in Subtree(height, ts, c) && x !in V
    ensures x in Subtree(height, ts1, c)
  {
    if x != c {
      var d :| d in ts[c].children && x in Subtree(height, ts, d);
      if d !in ts1[c].children {
        SubtreeMinimal(height, ts, d, V);
        assert false;
      }
      assert x in V + Subtree(height, ts1, d);
      assert d in ts1[c].children && x in Subtree(height, ts1, d);
    }
  }

  /** A node outside V below c in ts1 was already below c in ts. */
  lemma ShrunkAddsNothing(height: Measure, ts: Arena, ts1: Arena, V: set<NodeId>, c: NodeId, x: NodeId)
    requires ChildrenRanked(ts, height) && ChildrenRanked(ts1, height) && c in ts
    requires ts1.Keys == ts.Keys && ts1[c].children <= ts[c].children
    requires forall d :: d in ts[c].children ==> V + Subtree(height, ts1, d) == V + Subtree(height, ts, d)
    requires x in Subtree(height, ts1, c) && x !in V
    ensures x in Subtree(height, ts, c)
  {
    if x != c {
      var d :| d in ts1[c].children && x in Subtree(height, ts1, d);
      assert x in V + Subtree(height, ts, d);
      assert d in ts[c].children && x in Subtree(height, ts, d);
    }
  }

  /** Detaching V (closed) from a root that lies outside the subtree of c keeps the nodes reachable
      from c the same up to V. */
  lemma SubtreeDetached(height: Measure, ts: Arena, V: set<NodeId>, root: NodeId, c: NodeId)
    requires ChildrenRanked(ts, height) && c in ts && Closed(ts, V)
    requires root !in Subtree(height, ts, c)
    ensures ChildrenRanked(Detached(ts, V, root), height)
    ensures V + Subtree(height, Detached(ts, V, root), c) == V + Subtree(height, ts, c)
  {
    var ts1 := Detached(ts, V, root);
    DetachedRanked(height, ts, V, root);
    forall x, d | x in Subtree(height, ts, c) && x !in V && d in ts[x].children && d !in ts1[x].children
      ensures d in V
    {
      SubtreeClosed(height, ts, c);
      assert d in Orphans(ts, V, root, x);
    }
    SubtreeShrunk(height, ts, ts1, V, c);
  }

  /** The nodes below a set of children. */
  ghost function SubtreesOf(height: Measure, ts: Arena, cs: set<NodeId>): set<NodeId>
    requires ChildrenRanked(ts, height) && cs <= ts.Keys
  {
    set c, x | c in cs && x in Subtree(height, ts, c) :: x
  }

  lemma SubtreesOfAdd(height: Measure, ts: Arena, cs: set<NodeId>, c: NodeId)
    requires ChildrenRanked(ts, height) && cs <= ts.Keys && c in ts
    ensures SubtreesOf(height, ts, cs + {c}) == SubtreesOf(height, ts, cs) + Subtree(height, ts, c)
  {
    var l, r := SubtreesOf(height, ts, cs + {c}), SubtreesOf(height, ts, cs) + Subtree(height, ts, c);
    forall x | x in r ensures x in l {
      if x in Subtree(height, ts, c) {
        assert c in cs + {c} && x in Subtree(height, ts, c);
      } else {
        var d :| d in cs && x in Subtree(height, ts, d);
        assert d in cs + {c};
      }
    }
  }

  lemma SubtreesOfClosed(height: Measure, ts: Arena, cs: set<NodeId>)
    requires ChildrenRanked(ts, height) && cs <= ts.Keys
    ensures Closed(ts, SubtreesOf(height, ts, cs))
  {
    var S := SubtreesOf(height, ts, cs);
    forall x, y | x in S && x in ts && y in ts[x].children ensures y in S {
      var d :| d in cs && x in Subtree(height, ts, d);
      SubtreeClosed(height, ts, d);
      assert d in cs && y in Subtree(height, ts, d);
    }
  }


  // ---------------------------------------------------------------------------------------------
  // Reads along the parent chain (GetModelMatrix, GetGlobalPosition, GetGlobalScale).

  /** The matrix the updater caches for a node: translation, then the YXZ Euler rotation, then scale. */
  function LocalMatrix(t: Transform): Matrix
  {
    Local(t.localPosition, t.localRotation, t.localScale)
  }

  /** GetModelMatrix: the cached matrices of the ancestors composed with the node's own, at read time. */
  function ModelMatrixOf(ghost depth: Measure, ts: Arena, id: NodeId): Matrix
    requires ParentsRanked(ts, depth) && id in ts
    decreases Level(depth, id)
  {
    match ts[id].parent
    case None => ts[id].modelMatrix
    case Some(p) => Product(ModelMatrixOf(depth, ts, p), ts[id].modelMatrix)
  }

  /** GetGlobalPosition: the parent's model matrix applied to the local position (as a point). */
  function GlobalPosition(ghost depth: Measure, ts: Arena, id: NodeId, rot: Rotation): Vec3
    requires ParentsRanked(ts, depth) && id in ts
  {
    match ts[id].parent
    case None => ts[id].localPosition
    case Some(p) => Apply(ModelMatrixOf(depth, ts, p), ts[id].localPosition, rot)
  }

  /** GetGlobalScale: the parent's global scale times the local scale, per axis. */
  function GlobalScale(ghost depth: Measure, ts: Arena, id: NodeId): Vec3
    requires ParentsRanked(ts, depth) && id in ts
    decreases Level(depth, id)
  {
    match ts[id].parent
    case None => ts[id].localScale
    case Some(p) => Hadamard(GlobalScale(depth, ts, p), ts[id].localScale)
  }

  /** The ancestor chain, from a root down to the node itself. */
  ghost function Chain(depth: Measure, ts: Arena, id: NodeId): (c: seq<NodeId>)
    requires ParentsRanked(ts, depth) && id in ts
    ensures |c| > 0 && c[|c| - 1] == id
    ensures forall i :: 0 <= i < |c| ==> c[i] in ts
    ensures ts[c[0]].parent == None
    ensures forall i :: 0 < i < |c| ==> ts[c[i]].parent == Some(c[i - 1])
    decreases Level(depth, id)
  {
    match ts[id].parent
    case None => [id]
    case Some(p) => Chain(depth, ts, p) + [id]
  }

  /** The per-axis product of the local scales of the nodes in c. */
  ghost function ScaleProduct(ts: Arena, c: seq<NodeId>): Vec3
    requires forall i :: 0 <= i < |c| ==> c[i] in ts
  {
    if c == [] then One3 else Hadamard(ScaleProduct(ts, c[..|c| - 1]), ts[c[|c| - 1]].localScale)
  }

  /** The global scale is the product of the local scales along the whole ancestor chain. */
  lemma {:induction false} GlobalScaleIsChainProduct(depth: Measure, ts: Arena, id: NodeId)
    requires ParentsRanked(ts, depth) && id in ts
    ensures GlobalScale(depth, ts, id) == ScaleProduct(ts, Chain(depth, ts, id))
    decreases Level(depth, id)
  {
    var c := Chain(depth, ts, id);
    match ts[id].parent
    case None =>
      assert c[..|c| - 1] == [];
    case Some(p) =>
      assert c[..|c| - 1] == Chain(depth, ts, p);
      GlobalScaleIsChainProduct(depth, ts, p);
  }

  /** Reads of the global scale only see the parent links and local scales of the node's ancestors,
      and a node is an ancestor only of nodes deeper than itself. */
  lemma {:induction false} GlobalScaleFrame(depth: Measure, ts: Arena, ts': Arena, id: NodeId, x: NodeId)
    requires ParentsRanked(ts, depth) && ParentsRanked(ts', depth) && x in ts && ts'.Keys == ts.Keys
    requires forall y :: y in ts && y != id ==> ts'[y].parent == ts[y].parent && ts'[y].localScale == ts[y].localScale
    requires id in ts ==> Level(depth, x) < Level(depth, id)
    ensures GlobalScale(depth, ts', x) == GlobalScale(depth, ts, x)
    decreases Level(depth, x)
  {
    if ts[x].parent.Some? {
      GlobalScaleFrame(depth, ts, ts', id, ts[x].parent.value);
    }
  }

  /** Model matrices read only parent links and cached matrices. */
  lemma {:induction false} ModelMatrixFrame(depth: Measure, ts: Arena, ts': Arena, x: NodeId)
    requires ParentsRanked(ts, depth) && ParentsRanked(ts', depth) && x in ts && ts'.Keys == ts.Keys
    requires forall y :: y in ts ==> ts'[y].parent == ts[y].parent && ts'[y].modelMatrix == ts[y].modelMatrix
    ensures ModelMatrixOf(depth, ts', x) == ModelMatrixOf(depth, ts, x)
    decreases Level(depth, x)
  {
    if ts[x].parent.Some? {
      ModelMatrixFrame(depth, ts, ts', ts[x].parent.value);
    }
  }

  // ---------------------------------------------------------------------------------------------
  // The effect of the setters: a node replaced, then it and its subtree marked dirty.

  /** The arena after node id is replaced by t and MarkDirty runs on it. */
  ghost function Touched(height: Measure, ts: Arena, id: NodeId, t: Transform): Arena
    requires ChildrenRanked(ts, height) && id in ts
  {
    SetDirty(ts[id := t], Subtree(height, ts, id))
  }

  /** SetGlobalPosition's new local position: the target minus the parent's global position. */
  function LocalPositionFor(ghost depth: Measure, ts: Arena, id: NodeId, pos: Vec3, rot: Rotation): Vec3
    requires ParentsRanked(ts, depth) && id in ts
  {
    match ts[id].parent
    case None => pos
    case Some(p) => Sub(pos, GlobalPosition(depth, ts, p, rot))
  }

  /** SetGlobalRotation's new local rotation: normalised for a root, stored as given under a parent. */
  function LocalRotationFor(ts: Arena, id: NodeId, r: Vec3): Vec3
    requires id in ts
  {
    if ts[id].parent.Some? then r else NormalizeAngles(r)
  }

  /** SetGlobalScale's new local scale: the target divided by the parent's global scale. */
  function LocalScaleFor(ghost depth: Measure, ts: Arena, id: NodeId, s: Vec3): Vec3
    requires ParentsRanked(ts, depth) && id in ts
    requires ts[id].parent.Some? ==> NonZeroComponents(GlobalScale(depth, ts, ts[id].parent.value))
  {
    match ts[id].parent
    case None => s
    case Some(p) => Quotient(s, GlobalScale(depth, ts, p))
  }

  /** Touching a node keeps every link, so both measures still hold. */
  lemma TouchedRanked(depth: Measure, height: Measure, ts: Arena, id: NodeId, t: Transform)
    requires ParentsRanked(ts, depth) && ChildrenRanked(ts, height) && id in ts
    requires t.parent == ts[id].parent && t.children == ts[id].children
    ensures SameLinks(ts, Touched(height, ts, id, t))
    ensures ParentsRanked(Touched(height, ts, id, t), depth) && ChildrenRanked(Touched(height, ts, id, t), height)
  {
    assert SameLinks(ts, ts[id := t]);
    SameLinksRanked(depth, height, ts, Touched(height, ts, id, t));
  }

  /** A touched node is flagged dirty together with its children and the rest of its subtree; every
      other node is as it was. */
  lemma TouchedMarksSubtree(height: Measure, ts: Arena, id: NodeId, t: Transform, x: NodeId)
    requires ChildrenRanked(ts, height) && id in ts && x in ts
    ensures var ts' := Touched(height, ts, id, t);
      && x in ts'
      && ts'[id] == t.(dirty := true)
      && (x in ts[id].children ==> ts'[x].dirty)
      && (x !in Subtree(height, ts, id) ==> ts'[x] == ts[x])
      && (x in Subtree(height, ts, id) && x != id ==> ts'[x] == ts[x].(dirty := true))
  {
    if x in ts[id].children {
      SubtreeOfChild(height, ts, id, x);
    }
  }

  /** After SetGlobalScale(s) the node's global scale reads back as s. */
  lemma SetGlobalScaleRoundTrip(depth: Measure, height: Measure, ts: Arena, id: NodeId, s: Vec3)
    requires ParentsRanked(ts, depth) && ChildrenRanked(ts, height) && id in ts
    requires ts[id].parent.Some? ==> NonZeroComponents(GlobalScale(depth, ts, ts[id].parent.value))
    ensures var ts' := Touched(height, ts, id, ts[id].(localScale := LocalScaleFor(depth, ts, id, s)));
      ParentsRanked(ts', depth) && GlobalScale(depth, ts', id) == s
  {
    var t := ts[id].(localScale := LocalScaleFor(depth, ts, id, s));
    TouchedRanked(depth, height, ts, id, t);
    var ts' := Touched(height, ts, id, t);
    if ts[id].parent.Some? {
      var p := ts[id].parent.value;
      GlobalScaleFrame(depth, ts, ts', id, p);
      HadamardQuotient(s, GlobalScale(depth, ts, p));
    }
  }

  /** SetGlobalPosition only subtracts the parent's global position: the position it stores is read
      back through the parent's whole model matrix, rotation and scale included. */
  lemma SetGlobalPositionReadBack(depth: Measure, height: Measure, ts: Arena, id: NodeId, pos: Vec3, rot: Rotation)
    requires ParentsRanked(ts, depth) && ChildrenRanked(ts, height) && id in ts
    ensures var ts' := Touched(height, ts, id, ts[id].(localPosition := LocalPositionFor(depth, ts, id, pos, rot), positionChanged := true));
      && ParentsRanked(ts', depth)
      && GlobalPosition(depth, ts', id, rot) ==
         match ts[id].parent
         case None => pos
         case Some(p) => Apply(ModelMatrixOf(depth, ts, p), Sub(pos, GlobalPosition(depth, ts, p, rot)), rot)
  {
    var t := ts[id].(localPosition := LocalPositionFor(depth, ts, id, pos, rot), positionChanged := true);
    TouchedRanked(depth, height, ts, id, t);
    var ts' := Touched(height, ts, id, t);
    if ts[id].parent.Some? {
      ModelMatrixFrame(depth, ts, ts', ts[id].parent.value);
    }
  }

  /** In particular the round trip fails under a parent scaled by 2: asking for (1, 0, 0) places the
      child at (2, 0, 0). */
  lemma SetGlobalPositionUnderScaledParent()
    ensures var two := Vec3(2.0, 2.0, 2.0);
      var root := Transform(Zero3, Zero3, two, None, {1}, Local(Zero3, Zero3, two), false, false, false, false);
      var child := Transform(Zero3, Zero3, One3, Some(0), {}, Identity, false, false, false, false);
      var ts := map[0 := root, 1 := child];
      var depth: Measure := map[0 := 0, 1 := 1];
      var height: Measure := map[0 := 1, 1 := 0];
      var rot: Rotation := (e: Vec3, v: Vec3) => v;
      var pos := Vec3(1.0, 0.0, 0.0);
      var ts' := Touched(height, ts, 1, child.(localPosition := LocalPositionFor(depth, ts, 1, pos, rot), positionChanged := true));
      && ParentsRanked(ts, depth) && ChildrenRanked(ts, height)
      && ParentsRanked(ts', depth)
      && GlobalPosition(depth, ts', 1, rot) == Vec3(2.0, 0.0, 0.0)
  {
    var two := Vec3(2.0, 2.0, 2.0);
    var root := Transform(Zero3, Zero3, two, None, {1}, Local(Zero3, Zero3, two), false, false, false, false);
    var child := Transform(Zero3, Zero3, One3, Some(0), {}, Identity, false, false, false, false);
    var ts := map[0 := root, 1 := child];
    var depth: Measure := map[0 := 0, 1 := 1];
    var height: Measure := map[0 := 1, 1 := 0];
    var rot: Rotation := (e: Vec3, v: Vec3) => v;
    var pos := Vec3(1.0, 0.0, 0.0);
    assert ParentsRanked(ts, depth) && ChildrenRanked(ts, height);
    SetGlobalPositionReadBack(depth, height, ts, 1, pos, rot);
  }

  /** A node lies in no subtree hanging below it. */
  lemma NotBelowChild(height: Measure, ts: Arena, id: NodeId, c: NodeId)
    requires ChildrenRanked(ts, height) && id in ts && c in ts[id].children
    ensures id !in Subtree(height, ts, c)
  {
    SubtreeRanks(height, ts, c);
  }

  /** Replacing a node by one with the same links keeps both measures and every subtree. */
  lemma ReplaceKeepsLinks(depth: Measure, height: Measure, ts: Arena, id: NodeId, t: Transform)
    requires ParentsRanked(ts, depth) && ChildrenRanked(ts, height) && id in ts
    requires t.parent == ts[id].parent && t.children == ts[id].children
    ensures SameLinks(ts, ts[id := t])
    ensures ParentsRanked(ts[id := t], depth) && ChildrenRanked(ts[id := t], height)
    ensures Subtree(height, ts[id := t], id) == Subtree(height, ts, id)
  {
    assert SameLinks(ts, ts[id := t]);
    SameLinksRanked(depth, height, ts, ts[id := t]);
    SubtreeSameLinks(height, ts, height, ts[id := t], id);
  }

  /** Detaching never touches parent links, so the depth measure still holds. */
  lemma DetachedKeepsParents(depth: Measure, ts: Arena, V: set<NodeId>, root: NodeId)
    requires ParentsRanked(ts, depth)
    ensures ParentsRanked(Detached(ts, V, root), depth)
  {
  }

  /** The arena after SetParent(p) on node id: the parent link is replaced and id joins p's
      children; nothing is removed from the old parent's children. */
  function Reparented(ts: Arena, id: NodeId, p: Option<NodeId>): Arena
    requires id in ts
  {
    var t1 := ts[id := ts[id].(parent := p)];
    if p.Some? && p.value in t1 then t1[p.value := t1[p.value].(children := t1[p.value].children + {id})]
    else t1
  }

  /** SetParent first replaces the parent link, then adds the node to the new parent's children;
      measures that rank the final arena rank the arena in between too. */
  lemma ReparentSteps(ts: Arena, id: NodeId, p: Option<NodeId>, depth: Measure, height: Measure)
    requires id in ts && ParentsRanked(Reparented(ts, id, p), depth) && ChildrenRanked(Reparented(ts, id, p), height)
    ensures var ts1 := ts[id := ts[id].(parent := p)];
      && ParentsRanked(ts1, depth) && ChildrenRanked(ts1, height)
      && (p.Some? && p.value in ts ==> WithChild(ts1, p.value, id) == Reparented(ts, id, p))
      && (p.None? || p.value !in ts ==> ts1 == Reparented(ts, id, p))
  {
    var ts1 := ts[id := ts[id].(parent := p)];
    var target := Reparented(ts, id, p);
    forall x | x in ts1 ensures x in target && ts1[x].parent == target[x].parent && ts1[x].children <= target[x].children {
    }
    LinksWeakerRanked(ts1, target, depth, height);
  }

  /** An arena with the nodes and parent links of a ranked one and fewer children is ranked by the
      same measures. */
  lemma LinksWeakerRanked(ts: Arena, big: Arena, depth: Measure, height: Measure)
    requires ParentsRanked(big, depth) && ChildrenRanked(big, height) && ts.Keys == big.Keys
    requires forall x :: x in ts ==> x in big && ts[x].parent == big[x].parent && ts[x].children <= big[x].children
    ensures ParentsRanked(ts, depth) && ChildrenRanked(ts, height)
  {
    forall x, c | x in ts && c in ts[x].children ensures c in ts && Level(height, c) < Level(height, x) {
      assert c in big[x].children;
    }
  }

  /** The depth of a new node: one more than its parent's. */
  lemma NewNodeParents(ts: Arena, id: NodeId, t: Transform, parent: Option<NodeId>, depth: Measure, depth': Measure)
    requires ParentsRanked(ts, depth) && id !in ts && t.parent == None
    requires parent.Some? ==> parent.value in ts
    requires depth' == depth[id := if parent.Some? then Level(depth, parent.value) + 1 else 0]
    ensures ParentsRanked(ts[id := t], depth') && ParentsRanked(Reparented(ts[id := t], id, parent), depth')
  {
    var ts1 := ts[id := t];
    var target := Reparented(ts1, id, parent);
    assert forall x :: x in ts ==> Level(depth', x) == Level(depth, x);
    forall x | x in target && target[x].parent.Some?
      ensures target[x].parent.value in target && Level(depth', target[x].parent.value) < Level(depth', x)
    {
      if x != id {
        assert target[x].parent == ts[x].parent;
      }
    }
  }

  /** The height of a new node is 0 and every other node moves up by one. */
  lemma NewNodeChildren(ts: Arena, id: NodeId, t: Transform, parent: Option<NodeId>, height: Measure, height': Measure)
    requires ChildrenRanked(ts, height) && id !in ts && t.children == {}
    requires parent.Some? ==> parent.value in ts
    requires Level(height', id) == 0 && forall x :: x in ts ==> Level(height', x) == Level(height, x) + 1
    ensures ChildrenRanked(ts[id := t], height') && ChildrenRanked(Reparented(ts[id := t], id, parent), height')
  {
    var ts1 := ts[id := t];
    forall x, c | x in ts1 && c in ts1[x].children ensures c in ts1 && Level(height', c) < Level(height', x) {
      assert x in ts && c in ts[x].children;
    }
    var target := Reparented(ts1, id, parent);
    forall x, c | x in target && c in target[x].children ensures c in target && Level(height', c) < Level(height', x) {
      if c != id {
        assert x in ts && c in ts[x].children;
      } else {
        assert x != id && x in ts;
      }
    }
  }

  /** Measures for the arena after AddTransform: the new node sits just below its parent and,
      having no children, below every other node. */
  lemma NewNodeMeasures(ts: Arena, id: NodeId, t: Transform, parent: Option<NodeId>, depth: Measure, height: Measure)
      returns (depth': Measure, height': Measure)
    requires ParentsRanked(ts, depth) && ChildrenRanked(ts, height) && id !in ts
    requires t.parent == None && t.children == {}
    requires parent.Some? ==> parent.value in ts
    ensures ParentsRanked(ts[id := t], depth') && ChildrenRanked(ts[id := t], height')
    ensures ParentsRanked(Reparented(ts[id := t], id, parent), depth')
    ensures ChildrenRanked(Reparented(ts[id := t], id, parent), height')
  {
    depth' := depth[id := if parent.Some? then Level(depth, parent.value) + 1 else 0];
    height' := (map x | x in ts :: Level(height, x) + 1)[id := 0];
    assert forall x :: x in ts ==> Level(height', x) == Level(height, x) + 1;
    NewNodeParents(ts, id, t, parent, depth, depth');
    NewNodeChildren(ts, id, t, parent, height, height');
  }

  /** The arena after RemoveChild(c) on node id. */
  function WithoutChild(ts: Arena, id: NodeId, c: NodeId): Arena
    requires id in ts
  {
    ts[id := ts[id].(children := ts[id].children - {c})]
  }

  /** The arena after AddChild(c) on node id. */
  function WithChild(ts: Arena, id: NodeId, c: NodeId): Arena
    requires id in ts
  {
    ts[id := ts[id].(children := ts[id].children + {c})]
  }

  ghost predicate ParentsAcyclic(ts: Arena)
  {
    exists depth :: ParentsRanked(ts, depth)
  }

  ghost predicate ChildrenAcyclic(ts: Arena)
  {
    exists height :: ChildrenRanked(ts, height)
  }

  /** The entries appended to a log: q extends q0 by a sequence without repeats whose elements are S. */
  ghost predicate Extends(q0: seq<NodeId>, q: seq<NodeId>, S: set<NodeId>)
  {
    && |q0| <= |q|
    && q[..|q0|] == q0
    && (forall i, j :: |q0| <= i < j < |q| ==> q[i] != q[j])
    && (forall x :: x in S <==> x in q[|q0|..])
  }

  lemma ExtendsTrans(q0: seq<NodeId>, q1: seq<NodeId>, q2: seq<NodeId>, A: set<NodeId>, B: set<NodeId>)
    requires Extends(q0, q1, A) && Extends(q1, q2, B) && A !! B
    ensures Extends(q0, q2, A + B)
  {
    forall i, j | |q0| <= i < j < |q2| ensures q2[i] != q2[j] {
      if j >= |q1| && i < |q1| {
        assert q2[i] == q1[i] && q1[i] in q1[|q0|..];
        assert q2[j] in q2[|q1|..];
      }
    }
    forall x ensures x in A + B <==> x in q2[|q0|..] {
      assert q2[|q0|..] == q1[|q0|..] + q2[|q1|..];
    }
  }

  /** Every node whose matrix is not marked stale holds the matrix of its own local fields. */
  ghost predicate Coherent(ts: Arena)
  {
    forall id :: id in ts && !ts[id].dirty ==> ts[id].modelMatrix == LocalMatrix(ts[id])
  }

  /** The setters keep the cache coherent: whatever they change is marked dirty. */
  lemma TouchedCoherent(height: Measure, ts: Arena, id: NodeId, t: Transform)
    requires ChildrenRanked(ts, height) && id in ts && Coherent(ts)
    ensures Coherent(Touched(height, ts, id, t))
  {
    var ts' := Touched(height, ts, id, t);
    forall x | x in ts' && !ts'[x].dirty ensures ts'[x].modelMatrix == LocalMatrix(ts'[x]) {
      TouchedMarksSubtree(height, ts, id, t, x);
    }
  }

  /** What Invalidate leaves behind: the node and every node below it have no children and are
      deleted; the node's parent no longer lists it; every other node keeps all of its fields except
      that its children lose invalidated nodes whose parent it is. */
  lemma InvalidateEffects(height: Measure, ts: Arena, id: NodeId)
    requires ChildrenRanked(ts, height) && id in ts
    ensures var S := Subtree(height, ts, id);
      var ts' := Detached(ts, S, id);
      && ts'.Keys == ts.Keys
      && ts'[id].children == {} && ts'[id].deleted
      && (forall c :: c in ts[id].children ==> ts'[c].children == {} && ts'[c].deleted)
      && (ts[id].parent.Some? && ts[id].parent.value in ts ==> id !in ts'[ts[id].parent.value].children)
      && (forall x :: x in ts && x !in S ==>
            ts'[x] == ts[x].(children := ts'[x].children) && ts'[x].children <= ts[x].children
            && ts[x].children - ts'[x].children <= S)
  {
    var S := Subtree(height, ts, id);
    forall c | c in ts[id].children ensures c in S {
      SubtreeOfChild(height, ts, id, c);
    }
  }

  /** Invalidating keeps the cache coherent: it touches neither matrices nor local fields. */
  lemma DetachedCoherent(ts: Arena, V: set<NodeId>, root: NodeId)
    requires Coherent(ts)
    ensures Coherent(Detached(ts, V, root))
  {
  }

  /** A subtree is its root together with the subtrees of the root's children. */
  lemma SubtreeUnfold(height: Measure, ts: Arena, id: NodeId)
    requires ChildrenRanked(ts, height) && id in ts
    ensures ts[id].children <= ts.Keys
    ensures Subtree(height, ts, id) == {id} + SubtreesOf(height, ts, ts[id].children)
  {
    assert forall c :: c in ts[id].children ==> c in ts;
  }

  /** MarkDirty's first step, flagging the node itself. */
  lemma MarkStart(depth: Measure, height: Measure, ts: Arena, id: NodeId)
    requires ParentsRanked(ts, depth) && ChildrenRanked(ts, height) && id in ts
    ensures ts[id := ts[id].(dirty := true)] == SetDirty(ts, {id} + SubtreesOf(height, ts, {}))
  {
    assert SubtreesOf(height, ts, {}) == {};
  }

  /** One turn of MarkDirty's loop: marking the subtree of child c, as seen in the partly marked
      arena, adds exactly the subtree of c in the original arena. */
  lemma MarkStep(depth: Measure, height: Measure, ts: Arena, id: NodeId, done: set<NodeId>, c: NodeId, cur: Arena)
    requires ParentsRanked(ts, depth) && ChildrenRanked(ts, height) && id in ts && done <= ts.Keys && c in ts
    requires cur == SetDirty(ts, {id} + SubtreesOf(height, ts, done))
    ensures ParentsRanked(cur, depth) && ChildrenRanked(cur, height) && c in cur
    ensures SetDirty(cur, Subtree(height, cur, c)) == SetDirty(ts, {id} + SubtreesOf(height, ts, done + {c}))
  {
    var sub := Subtree(height, ts, c);
    var marked := {id} + SubtreesOf(height, ts, done);
    SetDirtyKeepsLinks(depth, height, ts, marked, c);
    assert Subtree(height, cur, c) == sub;
    SetDirtyUnion(ts, marked, sub);
    MarkedGrows(height, ts, id, done, c);
  }

  lemma MarkedGrows(height: Measure, ts: Arena, id: NodeId, done: set<NodeId>, c: NodeId)
    requires ChildrenRanked(ts, height) && done <= ts.Keys && c in ts
    ensures ({id} + SubtreesOf(height, ts, done)) + Subtree(height, ts, c) == {id} + SubtreesOf(height, ts, done + {c})
  {
    SubtreesOfAdd(height, ts, done, c);
  }

  /** An entry appended to a log that did not hold it yet extends the log by one more element. */
  lemma ExtendsAppend(q0: seq<NodeId>, q: seq<NodeId>, S: set<NodeId>, x: NodeId)
    requires Extends(q0, q, S) && x !in S
    ensures Extends(q0, q + [x], S + {x})
  {
    var q' := q + [x];
    assert q'[..|q0|] == q[..|q0|];
    assert q'[|q0|..] == q[|q0|..] + [x];
  }

  /** Invalidating the nodes below a child set never reaches the node itself. */
  lemma NotInSubtreesOfChildren(height: Measure, ts: Arena, id: NodeId, cs: set<NodeId>)
    requires ChildrenRanked(ts, height) && id in ts && cs <= ts[id].children
    ensures cs <= ts.Keys && id !in SubtreesOf(height, ts, cs)
  {
    forall c | c in cs ensures c in ts {
      assert c in ts[id].children;
    }
    forall c | c in cs ensures id !in Subtree(height, ts, c) {
      NotBelowChild(height, ts, id, c);
    }
  }

  /** Where Invalidate stands once the children in done are invalidated: the nodes V below them
      are detached, with the node itself among the removals, they are all deleted, and the log
      holds those of them that were not deleted before. */
  ghost predicate Invalidating(height: Measure, ts0: Arena, id: NodeId, D0: set<NodeId>, q0: seq<NodeId>,
                               done: set<NodeId>, ts: Arena, D: set<NodeId>, q: seq<NodeId>)
    requires ChildrenRanked(ts0, height) && done <= ts0.Keys
  {
    var V := SubtreesOf(height, ts0, done);
    ts == Detached(ts0, V, id) && D == D0 + V && Extends(q0, q, V - D0)
  }

  /** Invalidate's first step: removing the node from its parent's children is detaching no node
      with the node itself as the only removal; its own children stay as they were. */
  lemma InvalidateStart(depth: Measure, height: Measure, ts: Arena, id: NodeId, D: set<NodeId>, q: seq<NodeId>)
    requires ParentsRanked(ts, depth) && ChildrenRanked(ts, height) && id in ts
    ensures var ts1 := if ts[id].parent.Some? then WithoutChild(ts, ts[id].parent.value, id) else ts;
      && Invalidating(height, ts, id, D, q, {}, ts1, D, q)
      && ts1[id].children == ts[id].children
  {
    assert SubtreesOf(height, ts, {}) == {};
    if ts[id].parent.Some? {
      var p := ts[id].parent.value;
      assert p != id;
      var ts1 := WithoutChild(ts, p, id);
      forall x | x in ts ensures ts1[x] == Detached(ts, {}, id)[x] {
        assert Orphans(ts, {}, id, x) == if x == p then {id} else {};
      }
    } else {
      forall x | x in ts ensures ts[x] == Detached(ts, {}, id)[x] {
        assert Orphans(ts, {}, id, x) == {};
      }
    }
    assert {} - D == {};
  }

  /** Inside Invalidate's loop the arena is still ranked by both measures. */
  lemma InvalidateStep(depth: Measure, height: Measure, ts0: Arena, id: NodeId, V: set<NodeId>, c: NodeId, cur: Arena)
    requires ParentsRanked(ts0, depth) && ChildrenRanked(ts0, height) && c in ts0
    requires cur == Detached(ts0, V, id)
    ensures ParentsRanked(cur, depth) && ChildrenRanked(cur, height) && c in cur
  {
    DetachedRanked(height, ts0, V, id);
    DetachedKeepsParents(depth, ts0, V, id);
  }

  /** One turn of Invalidate's loop: invalidating child c in the partly detached arena detaches
      exactly the nodes below c in the original arena, on top of those already detached, and
      deletes and logs them. */
  lemma InvalidateTurn(height: Measure, ts0: Arena, id: NodeId, D0: set<NodeId>, q0: seq<NodeId>,
                       done: set<NodeId>, c: NodeId, cur: Arena, D: set<NodeId>, q: seq<NodeId>,
                       cur': Arena, D': set<NodeId>, q': seq<NodeId>)
    requires ChildrenRanked(ts0, height) && id in ts0
    requires done <= ts0[id].children && c in ts0[id].children && done <= ts0.Keys
    requires Invalidating(height, ts0, id, D0, q0, done, cur, D, q)
    requires ChildrenRanked(cur, height) && c in cur
    requires cur' == Detached(cur, Subtree(height, cur, c), c)
    requires D' == D + Subtree(height, cur, c) && Extends(q, q', Subtree(height, cur, c) - D)
    ensures done + {c} <= ts0.Keys && Invalidating(height, ts0, id, D0, q0, done + {c}, cur', D', q')
  {
    NotInSubtreesOfChildren(height, ts0, id, done);
    var V := SubtreesOf(height, ts0, done);
    SubtreesOfClosed(height, ts0, done);
    NotBelowChild(height, ts0, id, c);
    SubtreeDetached(height, ts0, V, id, c);
    var W := Subtree(height, cur, c);
    SubtreesOfAdd(height, ts0, done, c);
    var V' := SubtreesOf(height, ts0, done + {c});
    assert V + W == V';
    DetachedCompose(ts0, V, id, W, c);
    LogStep(q0, q, q', D0, V, W);
  }

  /** The log after one child: what it logged is what was not deleted before it or its siblings. */
  lemma LogStep(q0: seq<NodeId>, q1: seq<NodeId>, q2: seq<NodeId>, D0: set<NodeId>, V: set<NodeId>, W: set<NodeId>)
    requires Extends(q0, q1, V - D0) && Extends(q1, q2, W - (D0 + V))
    ensures Extends(q0, q2, (V + W) - D0)
  {
    ExtendsTrans(q0, q1, q2, V - D0, W - (D0 + V));
    assert (V - D0) + (W - (D0 + V)) == (V + W) - D0;
  }

  /** The log after the node itself: it is logged when it was not deleted yet. */
  lemma LogFinish(q0: seq<NodeId>, q1: seq<NodeId>, q: seq<NodeId>, D0: set<NodeId>, V: set<NodeId>, id: NodeId)
    requires Extends(q0, q1, V - D0) && id !in V
    requires q == if id in D0 + V then q1 else q1 + [id]
    ensures Extends(q0, q, (V + {id}) - D0)
  {
    if id in D0 + V {
      assert V - D0 == (V + {id}) - D0;
    } else {
      ExtendsAppend(q0, q1, V - D0, id);
      assert (V - D0) + {id} == (V + {id}) - D0;
    }
  }

  /** Invalidate's last step: clearing the node's own children, deleting its entity unless it
      already was, and flagging it deleted completes the invalidation of its whole subtree. */
  lemma InvalidateFinish(depth: Measure, height: Measure, ts0: Arena, id: NodeId, D0: set<NodeId>, q0: seq<NodeId>,
                         cur: Arena, D: set<NodeId>, q: seq<NodeId>, D': set<NodeId>, q': seq<NodeId>)
    requires ParentsRanked(ts0, depth) && ChildrenRanked(ts0, height) && id in ts0
    requires ts0[id].children <= ts0.Keys
    requires Invalidating(height, ts0, id, D0, q0, ts0[id].children, cur, D, q)
    requires D' == D + {id} && q' == if id in D then q else q + [id]
    ensures var S := Subtree(height, ts0, id);
      var cleared := cur[id := cur[id].(children := {})];
      && cleared[id := cleared[id].(deleted := true)] == Detached(ts0, S, id)
      && ParentsRanked(Detached(ts0, S, id), depth) && ChildrenRanked(Detached(ts0, S, id), height)
      && D' == D0 + S && Extends(q0, q', S - D0)
  {
    var S := Subtree(height, ts0, id);
    var V := SubtreesOf(height, ts0, ts0[id].children);
    SubtreeUnfold(height, ts0, id);
    NotInSubtreesOfChildren(height, ts0, id, ts0[id].children);
    assert V + {id} == S;
    DetachRoot(ts0, V, id);
    DetachedRanked(height, ts0, S, id);
    DetachedKeepsParents(depth, ts0, S, id);
    LogFinish(q0, q, q', D0, V, id);
  }

  /** Clearing the root's children and flagging it deleted turns the arena with V detached below
      the root into the arena with the root detached as well. */
  lemma DetachRoot(ts: Arena, V: set<NodeId>, root: NodeId)
    requires root in ts && root !in V
    ensures var cur := Detached(ts, V, root);
      var cleared := cur[root := cur[root].(children := {})];
      cleared[root := cleared[root].(deleted := true)] == Detached(ts, V + {root}, root)
  {
    var cur := Detached(ts, V, root);
    var cleared := cur[root := cur[root].(children := {})];
    var done := cleared[root := cleared[root].(deleted := true)];
    var target := Detached(ts, V + {root}, root);
    forall x | x in ts ensures done[x] == target[x] {
      if x !in V && x != root {
        assert Orphans(ts, V, root, x) == Orphans(ts, V + {root}, root, x);
      }
    }
    assert done.Keys == target.Keys;
  }

  // ---------------------------------------------------------------------------------------------

  /** The Transform components of a game, with the bookkeeping of entity deletion that Invalidate
      drives: the set of deleted entities and the log of deletion requests, in request order. */
  class Hierarchy {
    var transforms: Arena
    var deletedEntities: set<NodeId>
    var deleteRequests: seq<NodeId>
    ghost var depth: Measure
    ghost var height: Measure

    ghost predicate Valid()
      reads this
    {
      ParentsRanked(transforms, depth) && ChildrenRanked(transforms, height)
    }

    constructor ()
      ensures Valid() && transforms == map[] && deletedEntities == {} && deleteRequests == []
    {
      transforms := map[];
      deletedEntities := {};
      deleteRequests := [];
      depth := map[];
      height := map[];
    }

    /** The Transform constructor: local fields as given (the rotation is not normalised), an
        identity model matrix, no children, then SetParent. The initial dirty flag comes from a
        member initialiser that is not part of this model, so it is a parameter. */
    method AddTransform(id: NodeId, parent: Option<NodeId>, position: Vec3, rotation: Vec3, scale: Vec3, initiallyDirty: bool)
      requires Valid() && id !in transforms
      requires parent.Some? ==> parent.value in transforms
      modifies this
      ensures Valid()
      ensures transforms == Reparented(old(transforms)[id := Transform(position, rotation, scale, None, {}, Identity, initiallyDirty, false, false, false)], id, parent)
      ensures deletedEntities == old(deletedEntities) && deleteRequests == old(deleteRequests)
    {
      var t := Transform(position, rotation, scale, None, {}, Identity, initiallyDirty, false, false, false);
      ghost var d, h := NewNodeMeasures(transforms, id, t, parent, depth, height);
      transforms := transforms[id := t];
      depth, height := d, h;
      SetParent(id, parent);
    }

    method MarkDirty(id: NodeId)
      requires Valid() && id in transforms
      modifies this
      ensures Valid() && depth == old(depth) && height == old(height)
      ensures transforms == SetDirty(old(transforms), Subtree(height, old(transforms), id))
      ensures deletedEntities == old(deletedEntities) && deleteRequests == old(deleteRequests)
      decreases Level(height, id)
    {
      ghost var ts0, d0, h0 := transforms, depth, height;
      MarkStart(d0, h0, ts0, id);
      transforms := transforms[id := transforms[id].(dirty := true)];
      var todo := transforms[id].children;
      ghost var done: set<NodeId> := {};
      while todo != {}
        invariant todo + done == ts0[id].children && todo !! done && done <= ts0.Keys
        invariant depth == d0 && height == h0
        invariant transforms == SetDirty(ts0, {id} + SubtreesOf(h0, ts0, done))
        invariant deletedEntities == old(deletedEntities) && deleteRequests == old(deleteRequests)
        decreases todo
      {
        ghost var member := NonEmptyHasMember(todo);
        var c :| c in todo;
        MarkStep(d0, h0, ts0, id, done, c, transforms);
        MarkDirty(c);
        todo := todo - {c};
        done := done + {c};
      }
      SubtreeUnfold(h0, ts0, id);
      SetDirtyKeepsLinks(d0, h0, ts0, Subtree(h0, ts0, id), id);
    }

    /** Invalidate: the node leaves its parent's children, every child is invalidated in turn, the
        node's children are cleared, its entity is deleted unless it already was, and the component
        is flagged deleted. */
    method Invalidate(id: NodeId)
      requires Valid() && id in transforms
      modifies this
      ensures Valid() && depth == old(depth) && height == old(height)
      ensures transforms == Detached(old(transforms), Subtree(height, old(transforms), id), id)
      ensures deletedEntities == old(deletedEntities) + Subtree(height, old(transforms), id)
      ensures Extends(old(deleteRequests), deleteRequests, Subtree(height, old(transforms), id) - old(deletedEntities))
      decreases Level(height, id), 1
    {
      ghost var ts0, d0, h0, D0, q0 := transforms, depth, height, deletedEntities, deleteRequests;
      LeaveParent(id);
      var todo := transforms[id].children;
      ghost var done: set<NodeId> := {};
      while todo != {}
        invariant todo + done == ts0[id].children && todo !! done && done <= ts0.Keys
        invariant depth == d0 && height == h0
        invariant Invalidating(h0, ts0, id, D0, q0, done, transforms, deletedEntities, deleteRequests)
        decreases todo
      {
        ghost var member := NonEmptyHasMember(todo);
        var c :| c in todo;
        InvalidateChild(id, c, ts0, D0, q0, done);
        todo := todo - {c};
        done := done + {c};
      }
      Retire(id, ts0, D0, q0);
    }

    method LeaveParent(id: NodeId)
      requires Valid() && id in transforms
      modifies this
      ensures depth == old(depth) && height == old(height)
      ensures Invalidating(height, old(transforms), id, deletedEntities, deleteRequests, {}, transforms, deletedEntities, deleteRequests)
      ensures transforms[id].children == old(transforms)[id].children
      ensures deletedEntities == old(deletedEntities) && deleteRequests == old(deleteRequests)
    {
      InvalidateStart(depth, height, transforms, id, deletedEntities, deleteRequests);
      if transforms[id].parent.Some? {
        RemoveChild(transforms[id].parent.value, id);
      }
    }

    method Retire(id: NodeId, ghost ts0: Arena, ghost D0: set<NodeId>, ghost q0: seq<NodeId>)
      requires ParentsRanked(ts0, depth) && ChildrenRanked(ts0, height) && id in ts0 && ts0[id].children <= ts0.Keys
      requires Invalidating(height, ts0, id, D0, q0, ts0[id].children, transforms, deletedEntities, deleteRequests)
      modifies this
      ensures Valid() && depth == old(depth) && height == old(height)
      ensures transforms == Detached(ts0, Subtree(height, ts0, id), id)
      ensures deletedEntities == D0 + Subtree(height, ts0, id)
      ensures Extends(q0, deleteRequests, Subtree(height, ts0, id) - D0)
    {
      ghost var cur, D, q := transforms, deletedEntities, deleteRequests;
      transforms := transforms[id := transforms[id].(children := {})];
      DeleteEntity(id);
      transforms := transforms[id := transforms[id].(deleted := true)];
      InvalidateFinish(depth, height, ts0, id, D0, q0, cur, D, q, deletedEntities, deleteRequests);
    }

    /** One turn of Invalidate's loop: child c is invalidated. */
    method InvalidateChild(id: NodeId, c: NodeId, ghost ts0: Arena, ghost D0: set<NodeId>, ghost q0: seq<NodeId>, ghost done: set<NodeId>)
      requires ParentsRanked(ts0, depth) && ChildrenRanked(ts0, height) && id in ts0
      requires done <= ts0[id].children && c in ts0[id].children && done <= ts0.Keys
      requires Invalidating(height, ts0, id, D0, q0, done, transforms, deletedEntities, deleteRequests)
      modifies this
      ensures depth == old(depth) && height == old(height)
      ensures done + {c} <= ts0.Keys && Invalidating(height, ts0, id, D0, q0, done + {c}, transforms, deletedEntities, deleteRequests)
      decreases Level(height, id), 0
    {
      ghost var cur, D, q := transforms, deletedEntities, deleteRequests;
      InvalidateStep(depth, height, ts0, id, SubtreesOf(height, ts0, done), c, cur);
      Invalidate(c);
      InvalidateTurn(height, ts0, id, D0, q0, done, c, cur, D, q, transforms, deletedEntities, deleteRequests);
    }

    /** The entity manager's deleteEntity, guarded as Invalidate guards it: an entity already
        deleted is not deleted again. */
    method DeleteEntity(id: NodeId)
      modifies this
      ensures transforms == old(transforms) && depth == old(depth) && height == old(height)
      ensures deletedEntities == old(deletedEntities) + {id}
      ensures deleteRequests == if id in old(deletedEntities) then old(deleteRequests) else old(deleteRequests) + [id]
    {
      if id !in deletedEntities {
        deletedEntities := deletedEntities + {id};
        deleteRequests := deleteRequests + [id];
      }
    }

    method SetLocalPosition(id: NodeId, pos: Vec3)
      requires Valid() && id in transforms
      modifies this
      ensures Valid() && depth == old(depth) && height == old(height)
      ensures transforms == Touched(height, old(transforms), id, old(transforms)[id].(localPosition := pos, positionChanged := true))
      ensures deletedEntities == old(deletedEntities) && deleteRequests == old(deleteRequests)
    {
      var t := transforms[id].(localPosition := pos, positionChanged := true);
      ReplaceKeepsLinks(depth, height, transforms, id, t);
      transforms := transforms[id := t];
      MarkDirty(id);
    }

    method SetLocalRotation(id: NodeId, rotation: Vec3)
      requires Valid() && id in transforms
      modifies this
      ensures Valid() && depth == old(depth) && height == old(height)
      ensures transforms == Touched(height, old(transforms), id, old(transforms)[id].(localRotation := NormalizeAngles(rotation), rotationChanged := true))
      ensures deletedEntities == old(deletedEntities) && deleteRequests == old(deleteRequests)
    {
      var newRotation := NormalizeAngles(rotation);
      var t := transforms[id].(localRotation := newRotation, rotationChanged := true);
      ReplaceKeepsLinks(depth, height, transforms, id, t);
      transforms := transforms[id := t];
      MarkDirty(id);
    }

    /** SetLocalScale; the collider rescaling it triggers is not part of this model. */
    method SetLocalScale(id: NodeId, scale: Vec3)
      requires Valid() && id in transforms
      modifies this
      ensures Valid() && depth == old(depth) && height == old(height)
      ensures transforms == Touched(height, old(transforms), id, old(transforms)[id].(localScale := scale))
      ensures deletedEntities == old(deletedEntities) && deleteRequests == old(deleteRequests)
    {
      var t := transforms[id].(localScale := scale);
      ReplaceKeepsLinks(depth, height, transforms, id, t);
      transforms := transforms[id := t];
      MarkDirty(id);
    }

    /** SetGlobalPosition: rot is the rotation a model matrix applies (see Matrices.Apply). */
    method SetGlobalPosition(id: NodeId, pos: Vec3, rot: Rotation)
      requires Valid() && id in transforms
      modifies this
      ensures Valid() && depth == old(depth) && height == old(height)
      ensures transforms == Touched(height, old(transforms), id,
        old(transforms)[id].(localPosition := LocalPositionFor(old(depth), old(transforms), id, pos, rot), positionChanged := true))
      ensures deletedEntities == old(deletedEntities) && deleteRequests == old(deleteRequests)
    {
      var local: Vec3;
      if transforms[id].parent.Some? {
        var parentGlobalPos := GlobalPosition(depth, transforms, transforms[id].parent.value, rot);
        local := Sub(pos, parentGlobalPos);
      } else {
        local := pos;
      }
      var t := transforms[id].(localPosition := local, positionChanged := true);
      ReplaceKeepsLinks(depth, height, transforms, id, t);
      transforms := transforms[id := t];
      MarkDirty(id);
    }

    /** SetGlobalRotation. Under a parent the requested rotation is stored as given: the local
        rotation the component derives from the parent's rotation matrix is never used. */
    method SetGlobalRotation(id: NodeId, newRotation: Vec3)
      requires Valid() && id in transforms
      modifies this
      ensures Valid() && depth == old(depth) && height == old(height)
      ensures transforms == Touched(height, old(transforms), id,
        old(transforms)[id].(localRotation := LocalRotationFor(old(transforms), id, newRotation), rotationChanged := true))
      ensures deletedEntities == old(deletedEntities) && deleteRequests == old(deleteRequests)
    {
      var local: Vec3;
      if transforms[id].parent.Some? {
        local := newRotation;
      } else {
        local := NormalizeAngles(newRotation);
      }
      var t := transforms[id].(localRotation := local, rotationChanged := true);
      ReplaceKeepsLinks(depth, height, transforms, id, t);
      transforms := transforms[id := t];
      MarkDirty(id);
    }

    /** SetGlobalScale; the collider rescaling it triggers is not part of this model. */
    method SetGlobalScale(id: NodeId, scale: Vec3)
      requires Valid() && id in transforms
      requires transforms[id].parent.Some? ==> NonZeroComponents(GlobalScale(depth, transforms, transforms[id].parent.value))
      modifies this
      ensures Valid() && depth == old(depth) && height == old(height)
      ensures transforms == Touched(height, old(transforms), id, old(transforms)[id].(localScale := LocalScaleFor(old(depth), old(transforms), id, scale)))
      ensures deletedEntities == old(deletedEntities) && deleteRequests == old(deleteRequests)
    {
      var local: Vec3;
      if transforms[id].parent.Some? {
        var parentGlobalScale := GlobalScale(depth, transforms, transforms[id].parent.value);
        local := Quotient(scale, parentGlobalScale);
      } else {
        local := scale;
      }
      var t := transforms[id].(localScale := local);
      ReplaceKeepsLinks(depth, height, transforms, id, t);
      transforms := transforms[id := t];
      MarkDirty(id);
    }

    method Translate(id: NodeId, direction: Vec3)
      requires Valid() && id in transforms
      modifies this
      ensures Valid() && depth == old(depth) && height == old(height)
      ensures transforms == Touched(height, old(transforms), id,
        old(transforms)[id].(localPosition := Add(old(transforms)[id].localPosition, direction), positionChanged := true))
      ensures deletedEntities == old(deletedEntities) && deleteRequests == old(deleteRequests)
    {
      SetLocalPosition(id, Add(transforms[id].localPosition, direction));
    }

    /** Rotate normalises the sum and SetLocalRotation normalises again, which changes nothing. */
    method Rotate(id: NodeId, vector: Vec3)
      requires Valid() && id in transforms
      modifies this
      ensures Valid() && depth == old(depth) && height == old(height)
      ensures transforms == Touched(height, old(transforms), id,
        old(transforms)[id].(localRotation := NormalizeAngles(Add(old(transforms)[id].localRotation, vector)), rotationChanged := true))
      ensures deletedEntities == old(deletedEntities) && deleteRequests == old(deleteRequests)
    {
      var sum := Add(transforms[id].localRotation, vector);
      NormalizeAnglesFixpoint(sum);
      SetLocalRotation(id, NormalizeAngles(sum));
    }

    method Rescale(id: NodeId, scalingFactors: Vec3)
      requires Valid() && id in transforms
      modifies this
      ensures Valid() && depth == old(depth) && height == old(height)
      ensures transforms == Touched(height, old(transforms), id,
        old(transforms)[id].(localScale := Hadamard(old(transforms)[id].localScale, scalingFactors)))
      ensures deletedEntities == old(deletedEntities) && deleteRequests == old(deleteRequests)
    {
      SetLocalScale(id, Hadamard(transforms[id].localScale, scalingFactors));
    }

    /** SyncPosition: SetGlobalPosition, then the position-changed flag is cleared again. */
    method SyncPosition(id: NodeId, newPosition: Vec3, rot: Rotation)
      requires Valid() && id in transforms
      modifies this
      ensures Valid() && depth == old(depth) && height == old(height)
      ensures transforms == Touched(height, old(transforms), id,
        old(transforms)[id].(localPosition := LocalPositionFor(old(depth), old(transforms), id, newPosition, rot), positionChanged := false))
      ensures deletedEntities == old(deletedEntities) && deleteRequests == old(deleteRequests)
    {
      ghost var ts0 := transforms;
      SetGlobalPosition(id, newPosition, rot);
      transforms := transforms[id := transforms[id].(positionChanged := false)];
      ghost var t := ts0[id].(localPosition := LocalPositionFor(depth, ts0, id, newPosition, rot), positionChanged := false);
      assert transforms == Touched(height, ts0, id, t);
    }

    /** SyncRotation: SetGlobalRotation, then the rotation-changed flag is cleared again. */
    method SyncRotation(id: NodeId, newRotation: Vec3)
      requires Valid() && id in transforms
      modifies this
      ensures Valid() && depth == old(depth) && height == old(height)
      ensures transforms == Touched(height, old(transforms), id,
        old(transforms)[id].(localRotation := LocalRotationFor(old(transforms), id, newRotation), rotationChanged := false))
      ensures deletedEntities == old(deletedEntities) && deleteRequests == old(deleteRequests)
    {
      ghost var ts0 := transforms;
      SetGlobalRotation(id, newRotation);
      transforms := transforms[id := transforms[id].(rotationChanged := false)];
      ghost var t := ts0[id].(localRotation := LocalRotationFor(ts0, id, newRotation), rotationChanged := false);
      assert transforms == Touched(height, ts0, id, t);
    }

    /** SetParent: the node's parent link is replaced and the node joins the new parent's children.
        The caller keeps the hierarchy free of cycles. */
    method SetParent(id: NodeId, p: Option<NodeId>)
      requires Valid() && id in transforms
      requires p.Some? ==> p.value in transforms
      requires ParentsAcyclic(Reparented(transforms, id, p)) && ChildrenAcyclic(Reparented(transforms, id, p))
      modifies this
      ensures Valid()
      ensures transforms == Reparented(old(transforms), id, p)
      ensures deletedEntities == old(deletedEntities) && deleteRequests == old(deleteRequests)
    {
      ghost var target := Reparented(transforms, id, p);
      ghost var d: Measure :| ParentsRanked(target, d);
      ghost var h: Measure :| ChildrenRanked(target, h);
      ReparentSteps(transforms, id, p, d, h);
      depth, height := d, h;
      transforms := transforms[id := transforms[id].(parent := p)];
      if p.Some? {
        AddChild(p.value, id);
      }
    }

    method AddChild(id: NodeId, c: NodeId)
      requires Valid() && id in transforms && c in transforms
      requires ChildrenAcyclic(WithChild(transforms, id, c))
      modifies this
      ensures Valid() && depth == old(depth)
      ensures transforms == WithChild(old(transforms), id, c)
      ensures deletedEntities == old(deletedEntities) && deleteRequests == old(deleteRequests)
    {
      ghost var h: Measure :| ChildrenRanked(WithChild(transforms, id, c), h);
      height := h;
      transforms := transforms[id := transforms[id].(children := transforms[id].children + {c})];
    }

    method RemoveChild(id: NodeId, c: NodeId)
      requires Valid() && id in transforms
      modifies this
      ensures Valid() && depth == old(depth) && height == old(height)
      ensures transforms == WithoutChild(old(transforms), id, c)
      ensures deletedEntities == old(deletedEntities) && deleteRequests == old(deleteRequests)
    {
      ghost var ts0 := transforms;
      transforms := transforms[id := transforms[id].(children := transforms[id].children - {c})];
      assert ChildrenRanked(transforms, height) by {
        forall x, d | x in transforms && d in transforms[x].children ensures d in transforms && Level(height, d) < Level(height, x) {
          assert d in ts0[x].children;
        }
      }
    }
  }
}

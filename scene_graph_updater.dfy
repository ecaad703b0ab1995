/** The scene-graph updater: before every frame it walks all Transform components and, for each one
    whose cached matrix is stale, stores a freshly composed local matrix. Composition with the
    ancestors' matrices is left to the read (GetModelMatrix), so each node's new matrix depends on
    that node alone and the order of the walk does not matter. */
module SceneGraphUpdater {
  import opened Wrappers
  import opened Matrices
  import opened SceneGraph

  /** calculateModelMatrix, and the store of its result into the transform: a deleted transform gets
      the identity matrix and keeps its dirty flag; any other gets its local matrix and is clean. */
  function Recalculated(t: Transform): (r: Transform)
  {
    if t.deleted then t.(modelMatrix := Identity)
    else t.(modelMatrix := LocalMatrix(t), dirty := false)
  }

  /** The body of UpdateTransforms' per-component lambda: only a dirty transform is recomputed. */
  function Visit(t: Transform): Transform
  {
    if t.dirty then Recalculated(t) else t
  }

  /** The arena once the lambda has run on the nodes of A (and on no other). */
  function UpdatedOn(ts: Arena, A: set<NodeId>): Arena
  {
    map x | x in ts :: if x in A then Visit(ts[x]) else ts[x]
  }

  /** The arena after a whole UpdateTransforms pass. */
  function Updated(ts: Arena): Arena
  {
    UpdatedOn(ts, ts.Keys)
  }

  /** What one application of the lambda does to a transform: a clean transform is left alone; a
      dirty live one ends clean holding its local matrix; a dirty deleted one ends holding the
      identity and still dirty. Nothing but the cached matrix and the dirty flag changes. */
  lemma VisitEffects(t: Transform)
    ensures !t.dirty ==> Visit(t) == t
    ensures t.dirty && !t.deleted ==> !Visit(t).dirty && Visit(t).modelMatrix == LocalMatrix(t)
    ensures t.dirty && t.deleted ==> Visit(t).dirty && Visit(t).modelMatrix == Identity
    ensures Visit(t) == t.(modelMatrix := Visit(t).modelMatrix, dirty := Visit(t).dirty)
    ensures Visit(t).dirty <==> t.dirty && t.deleted
  {
  }

  /** Running the lambda twice on a transform is running it once. */
  lemma VisitIdempotent(t: Transform)
    ensures Visit(Visit(t)) == Visit(t)
  {
  }

  /** Running the lambda over A and then over B is running it over A + B, whatever order the nodes
      are visited in and even when A and B share nodes. */
  lemma UpdatedOnCompose(ts: Arena, A: set<NodeId>, B: set<NodeId>)
    ensures UpdatedOn(UpdatedOn(ts, A), B) == UpdatedOn(ts, A + B)
  {
    var l, r := UpdatedOn(UpdatedOn(ts, A), B), UpdatedOn(ts, A + B);
    forall x | x in ts ensures l[x] == r[x] {
      VisitIdempotent(ts[x]);
    }
    assert l.Keys == r.Keys;
  }

  /** Hence the pass does not depend on the order the components are visited in. */
  lemma UpdatedOnCommutes(ts: Arena, A: set<NodeId>, B: set<NodeId>)
    ensures UpdatedOn(UpdatedOn(ts, A), B) == UpdatedOn(UpdatedOn(ts, B), A)
  {
    UpdatedOnCompose(ts, A, B);
    UpdatedOnCompose(ts, B, A);
    assert A + B == B + A;
  }

  /** A second pass right after the first changes nothing. */
  lemma UpdatedIdempotent(ts: Arena)
    ensures Updated(Updated(ts)) == Updated(ts)
  {
    UpdatedOnCompose(ts, ts.Keys, ts.Keys);
    assert ts.Keys + ts.Keys == ts.Keys;
    assert Updated(ts).Keys == ts.Keys;
  }

  /** Per node, the pass leaves clean nodes alone, recomputes dirty live ones and leaves dirty
      deleted ones dirty with the identity, and keeps every link and local field. */
  lemma UpdatedEffects(ts: Arena, x: NodeId)
    requires x in ts
    ensures Updated(ts).Keys == ts.Keys
    ensures !ts[x].dirty ==> Updated(ts)[x] == ts[x]
    ensures Updated(ts)[x].dirty <==> ts[x].dirty && ts[x].deleted
    ensures ts[x].dirty && !ts[x].deleted ==> Updated(ts)[x].modelMatrix == LocalMatrix(ts[x])
    ensures ts[x].dirty && ts[x].deleted ==> Updated(ts)[x].modelMatrix == Identity
    ensures Updated(ts)[x] == ts[x].(modelMatrix := Updated(ts)[x].modelMatrix, dirty := Updated(ts)[x].dirty)
  {
    VisitEffects(ts[x]);
  }

  /** The pass never touches a link, so the arena keeps both measures. */
  lemma UpdatedKeepsLinks(depth: Measure, height: Measure, ts: Arena)
    requires ParentsRanked(ts, depth) && ChildrenRanked(ts, height)
    ensures SameLinks(ts, Updated(ts))
    ensures ParentsRanked(Updated(ts), depth) && ChildrenRanked(Updated(ts), height)
  {
    var ts' := Updated(ts);
    forall x | x in ts ensures ts'[x].parent == ts[x].parent && ts'[x].children == ts[x].children {
      VisitEffects(ts[x]);
    }
    SameLinksRanked(depth, height, ts, ts');
  }

  /** After the pass the cache is coherent again, provided it was before: every clean node holds its
      own local matrix. */
  lemma UpdatedCoherent(ts: Arena)
    requires Coherent(ts)
    ensures Coherent(Updated(ts))
  {
    forall x | x in Updated(ts) && !Updated(ts)[x].dirty
      ensures Updated(ts)[x].modelMatrix == LocalMatrix(Updated(ts)[x])
    {
      UpdatedEffects(ts, x);
    }
  }

  /** No node on the path from a root down to id is deleted. */
  ghost predicate LiveChain(depth: Measure, ts: Arena, id: NodeId)
    requires ParentsRanked(ts, depth) && id in ts
    decreases Level(depth, id)
  {
    !ts[id].deleted && (ts[id].parent.Some? ==> LiveChain(depth, ts, ts[id].parent.value))
  }

  /** The local matrices along the ancestor chain, composed root first. */
  ghost function LocalChainMatrix(depth: Measure, ts: Arena, id: NodeId): Matrix
    requires ParentsRanked(ts, depth) && id in ts
    decreases Level(depth, id)
  {
    match ts[id].parent
    case None => LocalMatrix(ts[id])
    case Some(p) => Product(LocalChainMatrix(depth, ts, p), LocalMatrix(ts[id]))
  }

  /** After a pass over a coherent arena, GetModelMatrix of a node whose ancestors are all live is the
      composition of the local matrices along its chain: parents are composed at read time. */
  lemma {:induction false} UpdatedModelMatrix(depth: Measure, ts: Arena, id: NodeId)
    requires ParentsRanked(ts, depth) && id in ts && Coherent(ts) && LiveChain(depth, ts, id)
    ensures ParentsRanked(Updated(ts), depth)
    ensures ModelMatrixOf(depth, Updated(ts), id) == LocalChainMatrix(depth, ts, id)
    decreases Level(depth, id)
  {
    var ts' := Updated(ts);
    forall x | x in ts && ts'[x].parent.Some?
      ensures ts'[x].parent.value in ts' && Level(depth, ts'[x].parent.value) < Level(depth, x)
    {
      UpdatedEffects(ts, x);
    }
    UpdatedEffects(ts, id);
    if ts[id].parent.Some? {
      UpdatedModelMatrix(depth, ts, ts[id].parent.value);
    }
  }

  /** One turn of the pass: running the lambda on one more node. */
  lemma UpdatedOnStep(ts: Arena, done: set<NodeId>, id: NodeId)
    requires id in ts && id !in done
    ensures id in UpdatedOn(ts, done) && UpdatedOn(ts, done)[id] == ts[id]
    ensures UpdatedOn(ts, done)[id := Visit(ts[id])] == UpdatedOn(ts, done + {id})
  {
    var l, r := UpdatedOn(ts, done)[id := Visit(ts[id])], UpdatedOn(ts, done + {id});
    forall x | x in ts ensures l[x] == r[x] {
    }
    assert l.Keys == r.Keys;
  }

  /** UpdateTransforms: with no Transform component it returns at once; otherwise every component is
      visited once, in some order, and each dirty one gets its matrix recomputed. */
  method UpdateTransforms(h: Hierarchy)
    requires h.Valid()
    modifies h
    ensures h.Valid() && h.depth == old(h.depth) && h.height == old(h.height)
    ensures h.transforms == Updated(old(h.transforms))
    ensures h.deletedEntities == old(h.deletedEntities) && h.deleteRequests == old(h.deleteRequests)
  {
    ghost var ts0 := h.transforms;
    UpdatedKeepsLinks(h.depth, h.height, ts0);
    if h.transforms == map[] {
      assert Updated(ts0) == ts0;
      return;
    }
    var todo := h.transforms.Keys;
    ghost var done: set<NodeId> := {};
    assert UpdatedOn(ts0, {}) == ts0;
    while todo != {}
      invariant todo <= ts0.Keys && done == ts0.Keys - todo
      invariant h.transforms == UpdatedOn(ts0, done)
      invariant h.depth == old(h.depth) && h.height == old(h.height)
      invariant h.deletedEntities == old(h.deletedEntities) && h.deleteRequests == old(h.deleteRequests)
      decreases todo
    {
      ghost var member := NonEmptyHasMember(todo);
      var id :| id in todo;
      UpdatedOnStep(ts0, done, id);
      var t := h.transforms[id];
      if t.dirty {
        h.transforms := h.transforms[id := Recalculated(t)];
      }
      todo := todo - {id};
      done := done + {id};
    }
  }
}

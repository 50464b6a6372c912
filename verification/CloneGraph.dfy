/**
 What a call of the copy operator returns, seen from outside: a graph with the same unfolding and the same
 sharing as the original, made of one new object for each key the visit comes to.
 */
module CloneGraph {
  import opened CopyOp

  /** The tree an observer sees who follows pointers up to the given depth. */
  datatype Tree = Cut | Nothing | Branch(data: int, cloneable: bool, attached: nat, subtrees: seq<Tree>)

  function Unfold(w: World, p: Ptr, depth: nat): Tree
    requires w.Valid() && (p.To? ==> p.id in w.heap)
    decreases depth
  {
    if p.Null? then Nothing
    else if depth == 0 then Cut
    else
      var node := w.heap[p.id];
      Branch(node.data, node.cloneable, node.attached, seq(|node.children|, i requires 0 <= i < |node.children| =>
        assert node.children[i] in node.children;
        Unfold(w, node.children[i], depth - 1)))
  }

  /** No key has a duplicate yet. */
  ghost predicate Unused(w: World) {
    forall k | k in w.duplicates :: w.duplicates[k] == Null
  }

  lemma {:induction false} OriginalsUnfoldAlike(a: World, b: World, p: Ptr, depth: nat)
    requires a.Valid() && b.Valid() && Grown(a, b) && (p.To? ==> p.id in a.heap)
    ensures Unfold(b, p, depth) == Unfold(a, p, depth)
    decreases depth
  {
    if p.To? && depth > 0 {
      var cs := a.heap[p.id].children;
      forall i | 0 <= i < |cs| ensures Unfold(b, cs[i], depth - 1) == Unfold(a, cs[i], depth - 1) {
        assert cs[i] in cs;
        OriginalsUnfoldAlike(a, b, cs[i], depth - 1);
      }
    }
  }

  /** The copy looks like the original to every depth, on cyclic graphs too. */
  lemma {:induction false} SameUnfolding(a: World, b: World, ps: seq<Ptr>, p: Ptr, depth: nat)
    requires a.Valid() && Unused(a) && Copied(a, b, ps)
    requires (p.To? ==> p.id in a.heap) && b.Settled(p)
    ensures b.Image(p).To? ==> b.Image(p).id in b.heap
    ensures Unfold(b, b.Image(p), depth) == Unfold(a, p, depth)
    decreases depth
  {
    hide OnlyReached, NothingElse, ClonesSound;
    if p.To? && Fresh(a, b, p.id) {
      assert b.Complete(p.id);
      var cs := a.heap[p.id].children;
      assert b.heap[p.id] == a.heap[p.id];
      if depth > 0 {
        forall i | 0 <= i < |cs| ensures b.Image(cs[i]).To? ==> b.Image(cs[i]).id in b.heap
                                 ensures Unfold(b, b.Image(cs[i]), depth - 1) == Unfold(a, cs[i], depth - 1)
        {
          assert cs[i] in cs;
          SameUnfolding(a, b, ps, cs[i], depth - 1);
        }
        assert b.heap[b.Image(p).id].children == b.Images(cs);
      }
    } else {
      OriginalsUnfoldAlike(a, b, p, depth);
    }
  }

  /** Two pointers of the copy are equal exactly if the pointers they came from are. */
  lemma SameSharing(a: World, b: World, ps: seq<Ptr>, p: Ptr, q: Ptr)
    requires a.Valid() && Unused(a) && Copied(a, b, ps)
    requires (p.To? ==> p.id in a.heap) && (q.To? ==> q.id in a.heap)
    ensures b.Image(p) == b.Image(q) <==> p == q
  {
    if p.To? && Fresh(a, b, p.id) { assert OneClone(a, b, p.id); }
    if q.To? && Fresh(a, b, q.id) { assert OneClone(a, b, q.id); }
  }

  /** Each key is cloned at most once, and every new object is the clone of a key. */
  lemma OneCloneEach(a: World, b: World, ps: seq<Ptr>)
    requires Copied(a, b, ps)
    ensures forall j, k | Fresh(a, b, j) && Fresh(a, b, k) && b.duplicates[j] == b.duplicates[k] :: j == k
    ensures forall i | i in b.heap && i !in a.heap :: exists k :: Fresh(a, b, k) && b.duplicates[k] == To(i)
  {
    forall j, k | Fresh(a, b, j) && Fresh(a, b, k) && b.duplicates[j] == b.duplicates[k] ensures j == k {
      assert OneClone(a, b, j) && OneClone(a, b, k);
    }
    forall i | i in b.heap && i !in a.heap ensures exists k :: Fresh(a, b, k) && b.duplicates[k] == To(i) {
      assert Fresh(a, b, b.origin[i]);
    }
  }

  /** Every set closed under visits that contains the roots contains `k`. */
  ghost predicate VisitReaches(a: World, ps: seq<Ptr>, k: Id) {
    forall V | ClosedUnderVisits(a, V) && Contains(V, ps) :: k in V
  }

  /** Exactly the reachable keys that were still to do are cloned. */
  lemma ClonesExactlyTheReached(a: World, b: World, ps: seq<Ptr>, k: Id)
    requires a.Valid() && Copied(a, b, ps) && IsVisited(a, k)
    requires forall p | p in ps && p.To? :: p.id in a.heap
    ensures Fresh(a, b, k) <==> VisitReaches(a, ps, k)
  {
    var V := set x | x in a.heap && x !in b.Todo();
    assert ClosedUnderVisits(a, V) by {
      forall j, c | j in V && j in a.Todo() && c in a.heap[j].children && c.To? ensures c.id in V {
        assert Fresh(a, b, j) && b.Complete(j);
        assert b.Settled(c);
      }
    }
    assert Contains(V, ps) by {
      forall p | p in ps && p.To? ensures p.id in V { assert b.Settled(p); }
    }
  }

  /** Pointers to anything but a cloneable key come back unchanged. */
  lemma OutsidersUnchanged(a: World, b: World, ps: seq<Ptr>, p: Ptr)
    requires a.Valid() && Unused(a) && Copied(a, b, ps) && (p.To? ==> !IsVisited(a, p.id))
    ensures b.Image(p) == p
  {
    if p.To? { assert !Fresh(a, b, p.id); }
  }
}

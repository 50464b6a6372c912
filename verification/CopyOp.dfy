/**
 `vsg::CopyOp` over a `vsg::Duplicate` map: cloning the part of an object graph whose objects are keys of
 the map. The copy constructor of `Object` enters the new object into the map before the members are
 copied, so shared and even cyclic structure is copied once.
 */
module CopyOp {

  type Id = nat

  datatype Ptr = Null | To(id: Id)

  /** `cloneable` objects override `clone` with a copy construction; the others inherit `Object::clone`. The first
      `attached` children are the user objects of the auxiliary, in the order of their names, and the others the
      pointer members of the class. */
  datatype Node = Node(data: int, cloneable: bool, attached: nat, children: seq<Ptr>) {
    function UserObjects(): seq<Ptr> { if attached <= |children| then children[..attached] else children }

    function Members(): seq<Ptr> { if attached <= |children| then children[attached..] else [] }
  }

  /** The heap, the duplicate map, the next free address, and which key each clone was made for. */
  datatype World = World(heap: map<Id, Node>, duplicates: map<Id, Ptr>, next: Id, origin: map<Id, Id>) {

    /** What a pointer to an original becomes in the copy. */
    function Image(p: Ptr): Ptr {
      if p.To? && p.id in duplicates && duplicates[p.id].To? then duplicates[p.id] else p
    }

    function Images(ps: seq<Ptr>): (r: seq<Ptr>)
      ensures |r| == |ps| && forall i | 0 <= i < |ps| :: r[i] == Image(ps[i])
    {
      seq(|ps|, i requires 0 <= i < |ps| => Image(ps[i]))
    }

    ghost predicate Valid() {
      && (forall i | i in heap :: i < next)
      && (forall i | i in origin :: i in heap)
      && (forall i, c | i in heap && c in heap[i].children && c.To? :: c.id in heap)
      && (forall k | k in duplicates :: k in heap && (duplicates[k].To? ==> duplicates[k].id in heap))
    }

    /** Keys that a visit still has to clone. */
    function Todo(): set<Id> {
      set k | k in duplicates && duplicates[k] == Null && k in heap && heap[k].cloneable
    }

    /** The image of `p` is final. */
    predicate Settled(p: Ptr) {
      p.To? ==> p.id !in Todo()
    }

    /** The clone of `k` has the data of `k` and the images of its children. */
    predicate Complete(k: Id) {
      && k in heap && k in duplicates && duplicates[k].To? && duplicates[k].id in heap
      && heap[duplicates[k].id] == heap[k].(children := Images(heap[k].children))
      && forall c | c in heap[k].children :: Settled(c)
    }
  }

  /** `k` received its clone between `a` and `b`. */
  predicate Fresh(a: World, b: World, k: Id) {
    k in a.duplicates && k in b.duplicates && a.duplicates[k] == Null && b.duplicates[k].To?
  }

  /** The heap only grew, by exactly one object for each key that received a clone. */
  ghost predicate Grown(a: World, b: World) {
    Kept(a, b) && ClonesSound(a, b) && NothingElse(a, b)
  }

  ghost predicate Kept(a: World, b: World) {
    && a.heap.Keys <= b.heap.Keys && a.duplicates.Keys == b.duplicates.Keys && a.origin.Keys <= b.origin.Keys
    && (forall i | i in a.heap :: b.heap[i] == a.heap[i])
    && (forall i | i in a.origin :: b.origin[i] == a.origin[i])
    && (forall k | k in a.duplicates && a.duplicates[k].To? :: b.duplicates[k] == a.duplicates[k])
  }

  ghost predicate ClonesSound(a: World, b: World) {
    forall k | Fresh(a, b, k) :: k in a.Todo() && OneClone(a, b, k)
  }

  ghost predicate NothingElse(a: World, b: World) {
    forall i | i in b.heap && i !in a.heap ::
      i in b.origin && Fresh(a, b, b.origin[i]) && b.duplicates[b.origin[i]] == To(i)
  }

  predicate OneClone(a: World, b: World, k: Id)
    requires k in b.duplicates && b.duplicates[k].To?
  {
    var i := b.duplicates[k].id;
    i !in a.heap && i in b.heap && i in b.origin && b.origin[i] == k
  }

  ghost predicate AllComplete(a: World, b: World) {
    forall k | Fresh(a, b, k) :: b.Complete(k)
  }

  /** A visit that comes to `k` goes on to its children: `k` is a key without a duplicate, of a class that clones. */
  predicate IsVisited(a: World, k: Id) {
    k in a.duplicates && a.duplicates[k].Null? && k in a.heap && a.heap[k].cloneable
  }

  /** `visited` is closed under what a visit of its members looks at. */
  ghost predicate ClosedUnderVisits(a: World, visited: set<Id>) {
    forall k, c | k in visited && IsVisited(a, k) && c in a.heap[k].children && c.To? :: c.id in visited
  }

  ghost predicate Within(a: World, b: World, visited: set<Id>) {
    forall k | Fresh(a, b, k) :: k in visited
  }

  lemma SettledStays(a: World, b: World, p: Ptr)
    requires Grown(a, b) && a.Valid() && a.Settled(p)
    ensures b.Settled(p) && b.Image(p) == a.Image(p)
  {
    if p.To? && p.id in a.duplicates && !a.duplicates[p.id].To? { assert !Fresh(a, b, p.id); }
  }

  lemma CompleteStays(a: World, b: World, k: Id)
    requires Grown(a, b) && a.Valid() && a.Complete(k)
    ensures b.Complete(k)
  {
    var cs := a.heap[k].children;
    forall c | c in cs ensures b.Settled(c) && b.Image(c) == a.Image(c) { SettledStays(a, b, c); }
    assert b.Images(cs) == a.Images(cs);
  }

  lemma FreshTwice(a: World, b: World, c: World, k: Id)
    requires Grown(a, b) && Grown(b, c)
    ensures Fresh(a, c, k) <==> Fresh(a, b, k) || Fresh(b, c, k)
  {
  }

  lemma LessToDo(a: World, b: World)
    requires Grown(a, b) && a.Valid()
    ensures b.Todo() <= a.Todo()
  {
  }

  lemma GrownTwice(a: World, b: World, c: World)
    requires Grown(a, b) && Grown(b, c) && a.Valid() && b.Valid()
    ensures Grown(a, c)
  {
    LessToDo(a, b);
    forall k | Fresh(a, c, k) ensures k in a.Todo() && OneClone(a, c, k) {
      FreshTwice(a, b, c, k);
    }
    forall i | i in c.heap && i !in a.heap
      ensures i in c.origin && Fresh(a, c, c.origin[i]) && c.duplicates[c.origin[i]] == To(i)
    {
      if i in b.heap { FreshTwice(a, b, c, b.origin[i]); } else { FreshTwice(a, b, c, c.origin[i]); }
    }
  }

  lemma CompleteTwice(a: World, b: World, c: World)
    requires Grown(a, b) && Grown(b, c) && a.Valid() && b.Valid() && AllComplete(a, b) && AllComplete(b, c)
    ensures AllComplete(a, c)
  {
    forall k | Fresh(a, c, k) ensures c.Complete(k) {
      FreshTwice(a, b, c, k);
      if Fresh(a, b, k) { CompleteStays(b, c, k); }
    }
  }

  /** Everything a visit of the pointers `ps` has to establish, from `a` to `b`. */
  ghost predicate Copied(a: World, b: World, ps: seq<Ptr>) {
    && b.Valid() && Grown(a, b) && AllComplete(a, b)
    && (forall p | p in ps :: b.Settled(p))
    && OnlyReached(a, b, ps)
  }

  /** Clones were made only of keys that the visit of `ps` comes to. */
  ghost predicate OnlyReached(a: World, b: World, ps: seq<Ptr>) {
    forall V | ClosedUnderVisits(a, V) && Contains(V, ps) :: Within(a, b, V)
  }

  ghost predicate Contains(V: set<Id>, ps: seq<Ptr>) {
    forall p | p in ps && p.To? :: p.id in V
  }

  lemma NothingToCopy(a: World, ps: seq<Ptr>)
    requires a.Valid() && forall p | p in ps :: a.Settled(p)
    ensures Copied(a, a, ps)
  {
  }

  lemma CopiedTwice(a: World, b: World, c: World, ps: seq<Ptr>, qs: seq<Ptr>)
    requires a.Valid() && Copied(a, b, ps) && Copied(b, c, qs)
    ensures Copied(a, c, ps + qs)
    ensures forall p | p in ps :: c.Image(p) == b.Image(p)
  {
    GrownTwice(a, b, c);
    CompleteTwice(a, b, c);
    forall p | p in ps ensures c.Settled(p) && c.Image(p) == b.Image(p) { SettledStays(b, c, p); }
    forall V | ClosedUnderVisits(a, V) && Contains(V, ps + qs) ensures Within(a, c, V) {
      assert forall p | p in ps || p in qs :: p in ps + qs;
      WithinTwice(a, b, c, V);
    }
  }

  lemma ImagesExtend(b: World, c: World, src: seq<Ptr>, i: nat)
    requires i < |src| && forall p | p in src[..i] :: c.Image(p) == b.Image(p)
    ensures b.Images(src[..i]) + [c.Image(src[i])] == c.Images(src[..i + 1])
  {
    forall j | 0 <= j < i ensures b.Image(src[j]) == c.Image(src[j]) { assert src[j] == src[..i][j]; }
  }

  lemma WithinTwice(a: World, b: World, c: World, V: set<Id>)
    requires Grown(a, b) && Grown(b, c) && a.Valid() && ClosedUnderVisits(a, V)
    ensures ClosedUnderVisits(b, V)
    ensures Within(a, b, V) && Within(b, c, V) ==> Within(a, c, V)
  {
    LessToDo(a, b);
    forall k | Fresh(a, c, k) ensures Fresh(a, b, k) || Fresh(b, c, k) { FreshTwice(a, b, c, k); }
  }

  lemma ImagesAppend(b: World, c: World, ps: seq<Ptr>, qs: seq<Ptr>)
    requires forall p | p in ps :: c.Image(p) == b.Image(p)
    ensures b.Images(ps) + c.Images(qs) == c.Images(ps + qs)
  {
  }

  /** The objects that the pointers lead to exist. */
  ghost predicate Present(w: World, ps: seq<Ptr>) { forall p | p in ps && p.To? :: p.id in w.heap }

  lemma StillPresent(a: World, b: World, ps: seq<Ptr>)
    requires Grown(a, b) && Present(a, ps)
    ensures Present(b, ps)
  {
  }

  lemma UnchangedNode(a: World, b: World, k: Id)
    requires Grown(a, b) && k in a.heap
    ensures k in b.heap && b.heap[k] == a.heap[k]
  {
  }

  // ----- the copy construction of one object -----

  /** `Object::Object(const Object&, const CopyOp&)` has run: the clone exists, is entered in the map, and
      has no members yet. */
  function Begun(a: World, k: Id): World
    requires k in a.heap
  {
    World(a.heap[a.next := a.heap[k].(children := [])], a.duplicates[k := To(a.next)],
          a.next + 1, a.origin[a.next := k])
  }

  /** The members of the clone `n` are in place. */
  function Finished(m: World, n: Id, children: seq<Ptr>): World
    requires n in m.heap
  {
    m.(heap := m.heap[n := m.heap[n].(children := children)])
  }

  lemma BeginClone(a: World, k: Id)
    requires a.Valid() && k in a.Todo()
    ensures Begun(a, k).Valid() && Begun(a, k).Todo() < a.Todo()
  {
    assert Begun(a, k).Todo() == a.Todo() - {k};
  }

  lemma BegunHeap(a: World, k: Id)
    requires a.Valid() && k in a.heap
    ensures k in Begun(a, k).heap && Begun(a, k).heap[k] == a.heap[k]
    ensures Present(Begun(a, k), a.heap[k].children)
  {
  }

  lemma BegunKept(a: World, k: Id, m: World)
    requires k in a.heap && Kept(Begun(a, k), m)
    ensures a.next in m.heap && k in m.duplicates && m.duplicates[k] == To(a.next)
    ensures a.next in m.origin && m.origin[a.next] == k
  {
    var b := Begun(a, k);
    assert b.duplicates[k] == To(a.next) && a.next in b.heap && b.origin[a.next] == k;
  }

  lemma BegunKeeps(a: World, k: Id)
    requires a.Valid() && k in a.Todo()
    ensures Kept(a, Begun(a, k)) && a.next !in a.heap && a.next !in a.duplicates
  {
  }

  lemma KeptTwice(a: World, b: World, c: World)
    requires Kept(a, b) && Kept(b, c)
    ensures Kept(a, c)
  {
  }

  lemma FinishKeeps(a: World, m: World, n: Id, children: seq<Ptr>)
    requires Kept(a, m) && n in m.heap && n !in a.heap
    ensures Kept(a, Finished(m, n, children))
  {
  }

  lemma FinishedKept(a: World, k: Id, m: World, children: seq<Ptr>)
    requires a.Valid() && k in a.Todo() && Kept(Begun(a, k), m)
    ensures a.next in m.heap && Kept(a, m) && Kept(a, Finished(m, a.next, children))
  {
    hide Kept, Begun, Finished;
    BegunKeeps(a, k);
    BegunKept(a, k, m);
    KeptTwice(a, Begun(a, k), m);
    FinishKeeps(a, m, a.next, children);
  }

  lemma FinishedFresh(a: World, k: Id, m: World, children: seq<Ptr>, j: Id)
    requires a.Valid() && k in a.Todo() && Kept(Begun(a, k), m)
    ensures Fresh(a, Finished(m, a.next, children), j) <==> j == k || Fresh(Begun(a, k), m, j)
  {
    assert Begun(a, k).duplicates[k].To?;
  }

  lemma FinishedSound(a: World, k: Id, m: World, children: seq<Ptr>, j: Id)
    requires a.Valid() && k in a.Todo() && Grown(Begun(a, k), m)
    requires j == k || Fresh(Begun(a, k), m, j)
    ensures j in a.Todo() && j in m.duplicates && m.duplicates[j].To? && OneClone(a, Finished(m, a.next, children), j)
  {
    hide Kept, NothingElse;
    BeginClone(a, k);
    BegunKept(a, k, m);
    BegunKeeps(a, k);
  }

  lemma FinishedGrown(a: World, k: Id, m: World, children: seq<Ptr>)
    requires a.Valid() && k in a.Todo() && Grown(Begun(a, k), m)
    ensures Grown(a, Finished(m, a.next, children))
  {
    hide Kept, World.Valid, OneClone;
    BegunKept(a, k, m);
    FinishedKept(a, k, m, children);
    var b, d := Begun(a, k), Finished(m, a.next, children);
    forall j | Fresh(a, d, j) ensures j in a.Todo() && OneClone(a, d, j) {
      FinishedFresh(a, k, m, children, j);
      FinishedSound(a, k, m, children, j);
    }
    forall i | i in d.heap && i !in a.heap
      ensures i in d.origin && Fresh(a, d, d.origin[i]) && d.duplicates[d.origin[i]] == To(i)
    {
      FinishedFresh(a, k, m, children, if i == a.next then k else d.origin[i]);
    }
  }

  lemma ImagesPresent(m: World, ps: seq<Ptr>)
    requires m.Valid() && Present(m, ps)
    ensures Present(m, m.Images(ps))
  {
  }

  lemma FinishValid(m: World, n: Id, children: seq<Ptr>)
    requires m.Valid() && n in m.heap && n !in m.duplicates && Present(m, children)
    ensures Finished(m, n, children).Valid() && Finished(m, n, children).Todo() == m.Todo()
  {
  }

  lemma FinishedValid(a: World, k: Id, m: World, children: seq<Ptr>)
    requires a.Valid() && k in a.Todo() && m.Valid() && Kept(Begun(a, k), m) && children == m.Images(a.heap[k].children)
    ensures a.next in m.heap && a.next !in m.duplicates && m.heap[k] == a.heap[k]
    ensures Finished(m, a.next, children).Valid() && Finished(m, a.next, children).Todo() == m.Todo()
  {
    hide World.Images;
    FinishedKept(a, k, m, children);
    BegunKeeps(a, k);
    ImagesPresent(m, m.heap[k].children);
    FinishValid(m, a.next, children);
  }

  lemma FinishKeepsComplete(m: World, n: Id, children: seq<Ptr>, j: Id)
    requires m.Complete(j) && n in m.heap && j != n && m.duplicates[j] != To(n)
    requires Finished(m, n, children).Todo() == m.Todo()
    ensures Finished(m, n, children).Complete(j)
  {
    assert Finished(m, n, children).Images(m.heap[j].children) == m.Images(m.heap[j].children);
  }

  lemma FinishCompletes(m: World, n: Id, children: seq<Ptr>, k: Id)
    requires n in m.heap && k in m.heap && k in m.duplicates && k != n && m.duplicates[k] == To(n)
    requires m.heap[n].(children := children) == m.heap[k].(children := children) && children == m.Images(m.heap[k].children)
    requires Finished(m, n, children).Todo() == m.Todo() && forall c | c in m.heap[k].children :: m.Settled(c)
    ensures Finished(m, n, children).Complete(k)
  {
    assert Finished(m, n, children).Images(m.heap[k].children) == children;
  }

  lemma FinishedComplete(a: World, k: Id, m: World, children: seq<Ptr>, j: Id)
    requires a.Valid() && k in a.Todo() && Copied(Begun(a, k), m, a.heap[k].children)
    requires children == m.Images(a.heap[k].children) && (j == k || Fresh(Begun(a, k), m, j))
    ensures Finished(m, a.next, children).Complete(j)
  {
    hide World.Images, World.Complete, World.Settled, OnlyReached, NothingElse;
    FinishedValid(a, k, m, children);
    BegunKept(a, k, m);
    BegunKeeps(a, k);
    if j == k {
      FinishCompletes(m, a.next, children, k);
    } else {
      FinishKeepsComplete(m, a.next, children, j);
    }
  }

  lemma BegunVisits(a: World, k: Id, V: set<Id>)
    requires a.Valid() && k in a.Todo() && ClosedUnderVisits(a, V) && k in V
    ensures ClosedUnderVisits(Begun(a, k), V) && Contains(V, a.heap[k].children)
  {
    var b := Begun(a, k);
    BeginClone(a, k);
    assert forall j | j in b.Todo() :: j in a.Todo() && b.heap[j] == a.heap[j];
  }

  lemma FinishedReached(a: World, k: Id, m: World, children: seq<Ptr>)
    requires a.Valid() && k in a.Todo() && Copied(Begun(a, k), m, a.heap[k].children)
    ensures a.next in m.heap && OnlyReached(a, Finished(m, a.next, children), [To(k)])
  {
    hide AllComplete, NothingElse, ClonesSound, World.Settled, ClosedUnderVisits, Kept, Begun, Finished, World.Valid;
    BegunKept(a, k, m);
    var b, d := Begun(a, k), Finished(m, a.next, children);
    forall V | ClosedUnderVisits(a, V) && Contains(V, [To(k)]) ensures Within(a, d, V) {
      assert To(k) in [To(k)];
      BegunVisits(a, k, V);
      forall j | Fresh(a, d, j) ensures j in V { FinishedFresh(a, k, m, children, j); }
    }
  }

  lemma FinishedImage(a: World, k: Id, m: World, children: seq<Ptr>)
    requires k in a.heap && Kept(Begun(a, k), m)
    ensures a.next in m.heap && k in Finished(m, a.next, children).duplicates
    ensures Finished(m, a.next, children).duplicates[k] == To(a.next)
  {
    BegunKept(a, k, m);
  }

  lemma FinishedCopied(a: World, k: Id, m: World, children: seq<Ptr>)
    requires a.Valid() && k in a.Todo() && Copied(Begun(a, k), m, a.heap[k].children)
    requires children == m.Images(a.heap[k].children)
    ensures Copied(a, Finished(m, a.next, children), [To(k)])
  {
    FinishedGrown(a, k, m, children);
    FinishedValid(a, k, m, children);
    FinishedReached(a, k, m, children);
    forall j | Fresh(a, Finished(m, a.next, children), j) ensures Finished(m, a.next, children).Complete(j) {
      FinishedFresh(a, k, m, children, j);
      FinishedComplete(a, k, m, children, j);
    }
    FinishedFresh(a, k, m, children, k);
  }

  /** The copy operator together with the memory it allocates from. */
  class Copier {
    var heap: map<Id, Node>
    var duplicates: map<Id, Ptr>
    var next: Id
    ghost var origin: map<Id, Id>

    ghost function Now(): World
      reads this
    {
      World(heap, duplicates, next, origin)
    }

    /** `CopyOp::operator()(ref_ptr<T>)` */
    method Copy(p: Ptr) returns (r: Ptr)
      requires Now().Valid() && (p.To? ==> p.id in heap)
      modifies this
      ensures Copied(old(Now()), Now(), [p]) && r == Now().Image(p)
      decreases Now().Todo(), 1
    {
      r := p;
      if p.To? && p.id in duplicates {
        if duplicates[p.id].Null? {
          var c := Clone(p.id);
          assert duplicates[p.id := c] == duplicates;
          duplicates := duplicates[p.id := c];
        } else {
          NothingToCopy(Now(), [p]);
        }
        if duplicates[p.id].To? { r := duplicates[p.id]; }
      } else {
        NothingToCopy(Now(), [p]);
      }
    }

    /** The virtual `clone`: copy construction, or `Object::clone` where it is not overridden. */
    method Clone(k: Id) returns (c: Ptr)
      requires Now().Valid() && k in duplicates && duplicates[k].Null?
      modifies this
      ensures Copied(old(Now()), Now(), [To(k)]) && k in duplicates && c == duplicates[k]
      decreases Now().Todo(), 0, 1
    {
      if heap[k].cloneable {
        c := CopyConstruct(k);
      } else {
        NothingToCopy(Now(), [To(k)]);
        c := duplicates[k];
      }
    }

    /** `T::create(*this, copyop)` */
    method CopyConstruct(k: Id) returns (c: Ptr)
      requires Now().Valid() && k in Now().Todo()
      modifies this
      ensures Copied(old(Now()), Now(), [To(k)]) && k in duplicates && c == duplicates[k]
      decreases Now().Todo(), 0, 0
    {
      hide Kept, ClonesSound, NothingElse, AllComplete, OnlyReached, Finished;
      ghost var a := Now();
      BeginClone(a, k);
      var n := Begin(k);
      BegunHeap(a, k);
      var children := CopyChildren(k);
      ghost var m := Now();
      BegunKept(a, k, m);
      FinishedCopied(a, k, m, children);
      Finish(n, children);
      FinishedImage(a, k, m, children);
      c := To(n);
    }

    /** The user objects of `k`, and then its pointer members. */
    method CopyChildren(k: Id) returns (children: seq<Ptr>)
      requires Now().Valid() && k in heap && Present(Now(), heap[k].children)
      modifies this
      ensures k in old(heap)
      ensures Copied(old(Now()), Now(), old(heap[k].children)) && children == Now().Images(old(heap[k].children))
      decreases Now().Todo(), 3
    {
      hide Kept, ClonesSound, NothingElse, AllComplete, OnlyReached, World.Valid, World.Todo, World.Settled, World.Image,
           World.Images;
      ghost var a, users, members := Now(), heap[k].UserObjects(), heap[k].Members();
      assert users + members == heap[k].children;
      var userObjects := CopyAll(heap[k].UserObjects());
      ghost var b := Now();
      LessToDo(a, b);
      UnchangedNode(a, b, k);
      StillPresent(a, b, members);
      children := CopyAll(heap[k].Members());
      CopiedTwice(a, b, Now(), users, members);
      ImagesAppend(b, Now(), users, members);
      children := userObjects + children;
    }

    /** `Object`'s part of the copy construction of `k`. */
    method Begin(k: Id) returns (n: Id)
      requires k in heap
      modifies this
      ensures n == old(next) && Now() == Begun(old(Now()), k)
    {
      n := next;
      heap, next := heap[n := heap[k].(children := [])], next + 1;
      duplicates, origin := duplicates[k := To(n)], origin[n := k];
    }

    /** The member initialisers of the derived class. */
    method Finish(n: Id, children: seq<Ptr>)
      requires n in heap
      modifies this
      ensures Now() == Finished(old(Now()), n, children)
    {
      heap := heap[n := heap[n].(children := children)];
    }

    /** `CopyOp::operator()(const C& src)` for a container of pointers. */
    method CopyAll(src: seq<Ptr>) returns (dest: seq<Ptr>)
      requires Now().Valid() && Present(Now(), src)
      modifies this
      ensures Copied(old(Now()), Now(), src) && dest == Now().Images(src)
      decreases Now().Todo(), 2
    {
      hide Kept, ClonesSound, NothingElse, AllComplete, OnlyReached, World.Valid, World.Todo, World.Settled, World.Image,
           World.Images, Grown;
      dest := [];
      ghost var a := Now();
      NothingToCopy(a, []);
      assert src[..0] == [];
      for i := 0 to |src|
        invariant Copied(a, Now(), src[..i])
        invariant dest == Now().Images(src[..i])
      {
        ghost var b := Now();
        LessToDo(a, b);
        StillPresent(a, b, src);
        var q := Copy(src[i]);
        CopiedTwice(a, b, Now(), src[..i], [src[i]]);
        assert src[..i] + [src[i]] == src[..i + 1];
        ImagesExtend(b, Now(), src, i);
        dest := dest + [q];
      }
      assert src[..|src|] == src;
    }
  }
}

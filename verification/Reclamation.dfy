/**
 What releasing references means for the object graph: objects reachable from a free-standing `ref_ptr`
 are never freed, and on an acyclic graph everything else is.
 */
module Reclamation {
  import opened Ownership

  /** A chain of `n` members leads from something outside the heap to `o`. */
  ghost predicate ReachedIn(floating: set<Address>, slots: Slots, o: Address, n: nat)
    decreases n
  {
    if n == 0 then o in floating || exists h :: h in Holders(slots, {}, o) && h.Root?
    else exists h :: h in Holders(slots, {}, o) && h.Field? && ReachedIn(floating, slots, h.owner, n - 1)
  }

  ghost predicate Reachable(floating: set<Address>, slots: Slots, o: Address) {
    exists n: nat :: ReachedIn(floating, slots, o, n)
  }

  /** Members point from higher to lower rank only. */
  ghost predicate Acyclic(slots: Slots, rank: map<Address, nat>) {
    forall h | h in slots && h.Field? && slots[h].To? ::
      h.owner in rank && slots[h].obj in rank && rank[h.owner] > rank[slots[h].obj]
  }

  ghost predicate MembersOf(slots: Slots, alive: set<Address>) {
    forall h | h in slots && h.Field? :: h.owner in alive
  }

  /** Nothing that can still be reached is freed, whatever the shape of the graph. */
  lemma {:induction false} ReachableIsKept(floating: set<Address>, alive: set<Address>, before: Slots, kept: set<Address>,
                                           o: Address, n: nat)
    requires Largest(floating, before, alive, kept) && MembersOf(before, alive)
    requires o in alive && ReachedIn(floating, before, o, n)
    ensures o in kept
    decreases n
  {
    var K := kept + {o};
    if n == 0 {
      assert SelfSupporting(floating, before, K);
    } else {
      var h :| h in Holders(before, {}, o) && h.Field? && ReachedIn(floating, before, h.owner, n - 1);
      ReachableIsKept(floating, alive, before, kept, h.owner, n - 1);
      assert SelfSupporting(floating, before, K);
    }
  }

  lemma {:induction false} SupportedIsReached(floating: set<Address>, slots: Slots, K: set<Address>,
                                              rank: map<Address, nat>, top: nat, o: Address)
    requires SelfSupporting(floating, slots, K) && Acyclic(slots, rank) && o in K
    requires forall x | x in rank :: rank[x] <= top
    ensures Reachable(floating, slots, o)
    decreases if o in rank then top - rank[o] else top + 1
  {
    if o in floating || exists h :: h in Holders(slots, {}, o) && h.Root? {
      assert ReachedIn(floating, slots, o, 0);
    } else {
      var h :| h in Holders(slots, {}, o) && h.owner in K;
      SupportedIsReached(floating, slots, K, rank, top, h.owner);
      var n: nat :| ReachedIn(floating, slots, h.owner, n);
      assert ReachedIn(floating, slots, o, n + 1);
    }
  }

  lemma RankBound(rank: map<Address, nat>) returns (top: nat)
    ensures forall x | x in rank :: rank[x] <= top
  {
    top := 0;
    var rest := rank.Keys;
    while rest != {}
      invariant rest <= rank.Keys
      invariant forall x | x in rank.Keys - rest :: rank[x] <= top
      decreases rest
    {
      var x :| x in rest;
      rest := rest - {x};
      if rank[x] > top { top := rank[x]; }
    }
  }

  /** On an acyclic graph a release frees exactly the objects that can no longer be reached. */
  lemma FreesExactlyTheUnreachable(floating: set<Address>, alive: set<Address>, before: Slots, counts: Counts, slots: Slots,
                                   rank: map<Address, nat>, o: Address)
    requires Collected(floating, alive, before, counts, slots)
    requires MembersOf(before, alive) && Acyclic(before, rank) && o in alive
    ensures o in counts <==> Reachable(floating, before, o)
  {
    if o in counts {
      var top := RankBound(rank);
      SupportedIsReached(floating, before, counts.Keys, rank, top, o);
    }
    if Reachable(floating, before, o) {
      var n: nat :| ReachedIn(floating, before, o, n);
      ReachableIsKept(floating, alive, before, counts.Keys, o, n);
    }
  }

  /** Dropping a set of free-standing pointers on an acyclic heap frees exactly the objects that can no longer be
      reached from the others, relative to the heap before the first of them went. */
  lemma DroppingRootsFreesTheUnreachable(before: Counts, held: Slots, roots: set<Slot>, counts: Counts, slots: Slots,
                                         rank: map<Address, nat>, o: Address)
    requires Counted(before, held, {}, {}, Null) && Acyclic(held, rank) && Roots(held, roots) && o in before
    requires Collected(Floating(before), before.Keys, DropAll(held, roots), counts, slots)
    ensures o in counts <==> Reachable(Floating(before), DropAll(held, roots), o)
  {
    FreesExactlyTheUnreachable(Floating(before), before.Keys, DropAll(held, roots), counts, slots, rank, o);
  }

  /** What is left does not depend on the order in which they go. */
  lemma DroppingRootsInAnyOrder(floating: set<Address>, alive: set<Address>, before: Slots, c1: Counts, s1: Slots, c2: Counts,
                                s2: Slots)
    requires Collected(floating, alive, before, c1, s1) && Collected(floating, alive, before, c2, s2)
    ensures c1.Keys == c2.Keys && s1 == s2
  {
  }

  lemma {:induction false} NothingReachedWithoutRoots(slots: Slots, o: Address, n: nat)
    requires forall h | h in slots :: h.Field?
    ensures !ReachedIn({}, slots, o, n)
    decreases n
  {
    if n > 0 {
      forall h | h in Holders(slots, {}, o) && h.Field?
        ensures !ReachedIn({}, slots, h.owner, n - 1)
      {
        NothingReachedWithoutRoots(slots, h.owner, n - 1);
      }
    }
  }

  /** Once the last free-standing `ref_ptr` is gone an acyclic heap is empty. */
  lemma DroppingAllRootsFreesEverything(counts: Counts, slots: Slots, rank: map<Address, nat>)
    requires Counted(counts, slots, {}, {}, Null) && Floating(counts) == {}
    requires Acyclic(slots, rank) && forall h | h in slots :: h.Field?
    ensures counts == map[] && slots == map[]
  {
    AllSupported(counts, slots);
    forall o | o in counts ensures false {
      FreesExactlyTheUnreachable({}, counts.Keys, slots, counts, slots, rank, o);
      forall n: nat ensures !ReachedIn({}, slots, o, n) { NothingReachedWithoutRoots(slots, o, n); }
    }
  }

  /** Dropping all of them leaves nothing of an acyclic heap. */
  lemma DroppingEveryRootFreesEverything(before: Counts, held: Slots, roots: set<Slot>, counts: Counts, slots: Slots,
                                         rank: map<Address, nat>)
    requires Counted(before, held, {}, {}, Null) && Floating(before) == {} && Acyclic(held, rank)
    requires forall h :: h in roots <==> h in held && h.Root?
    requires Collected({}, before.Keys, DropAll(held, roots), counts, slots) && Counted(counts, slots, {}, {}, Null)
    ensures counts == map[] && slots == map[]
  {
    DroppingAllRootsFreesEverything(counts, slots, rank);
  }

  function TwoCycle(): (Counts, Slots) {
    (map[0 := 1, 1 := 1], map[Field(0, 0) := To(1), Field(1, 0) := To(0)])
  }

  // ----- which assignments are safe -----

  /** On an acyclic graph no slot is owned by what it points to, so `reset()` cannot reach its own slot. */
  lemma ResetIsSafe(counts: Counts, slots: Slots, s: Slot, rank: map<Address, nat>)
    requires Counted(counts, slots, {}, {}, Null) && s in slots && slots[s].To? && Acyclic(slots, rank)
    ensures Outlives(Floating(counts), counts.Keys, slots[s := Null], s)
  {
    if s.Field? {
      var floor := rank[s.owner];
      var K := set x | x in counts && (x in rank ==> rank[x] >= floor);
      forall x | x in K && x !in Floating(counts)
        ensures exists h :: h in Holders(slots[s := Null], {}, x) && (h.Root? || h.owner in K)
      {
        assert Holders(slots, {}, x) != {};
        var h :| h in Holders(slots, {}, x);
        assert h in Holders(slots[s := Null], {}, x);
      }
      assert SelfSupporting(Floating(counts), slots[s := Null], K);
    }
  }

  /** The move assignment `s = std::move(rhs)` meets its source alive exactly if `rhs` is free-standing or
      a member of an object that stays reachable without `s`. */
  lemma MoveIsSafeIff(counts: Counts, slots: Slots, s: Slot, rhs: Slot, rank: map<Address, nat>)
    requires Counted(counts, slots, {}, {}, Null) && s in slots && rhs in slots && Acyclic(slots, rank)
    ensures Outlives(Floating(counts), counts.Keys, slots[s := Null], rhs)
       <==> rhs.Root? || Reachable(Floating(counts), slots[s := Null], rhs.owner)
  {
    var F, after := Floating(counts), slots[s := Null];
    assert Acyclic(after, rank);
    if rhs.Field? {
      if Outlives(F, counts.Keys, after, rhs) {
        var K :| K <= counts.Keys && SelfSupporting(F, after, K) && rhs.owner in K;
        var top := RankBound(rank);
        SupportedIsReached(F, after, K, rank, top, rhs.owner);
      }
      if Reachable(F, after, rhs.owner) {
        var n: nat :| ReachedIn(F, after, rhs.owner, n);
        var kept := Union(F, after, counts.Keys);
        ReachableIsKept(F, counts.Keys, after, kept, rhs.owner, n);
      }
    }
  }

  /** There is a largest self-supporting set: the union of all of them. */
  lemma Union(floating: set<Address>, slots: Slots, alive: set<Address>) returns (kept: set<Address>)
    ensures Largest(floating, slots, alive, kept)
  {
    kept := set x | x in alive && exists K :: K <= alive && SelfSupporting(floating, slots, K) && x in K;
    forall o | o in kept && o !in floating
      ensures exists h :: h in Holders(slots, {}, o) && (h.Root? || h.owner in kept)
    {
      var K :| K <= alive && SelfSupporting(floating, slots, K) && o in K;
      var h :| h in Holders(slots, {}, o) && (h.Root? || h.owner in K);
    }
  }

  /** Copy assignment keeps its new target, even one that only the old target led to, wherever the pointer lives;
      it loses the pointer itself only with the object that it is a member of. */
  lemma CopyKeepsItsTarget(floating: set<Address>, alive: set<Address>, before: Slots, counts: Counts, slots: Slots, s: Slot)
    requires Collected(floating, alive, before, counts, slots) && Counted(counts, slots, {}, {}, Null)
    requires s in before && (s.Field? ==> s.owner in alive)
    ensures s in slots <==> s.Root? || s.owner in counts
    ensures s in slots ==> slots[s] == before[s] && (before[s].To? ==> before[s].obj in counts)
  {
  }

  function TwoList(): (Counts, Slots) {
    (map[0 := 1, 1 := 1], map[Root(0) := To(0), Field(0, 0) := To(1)])
  }

  /** `list = std::move(list->next)` on a list of two: the source dies before it is read. */
  lemma MoveFromOwnedMemberFails()
    ensures Counted(TwoList().0, TwoList().1, {}, {}, Null) && Acyclic(TwoList().1, map[0 := 1, 1 := 0])
    ensures !Outlives(Floating(TwoList().0), TwoList().0.Keys, TwoList().1[Root(0) := Null], Field(0, 0))
  {
    assert Holders(TwoList().1, {}, 0) == {Root(0)} && Holders(TwoList().1, {}, 1) == {Field(0, 0)};
    assert Holders(TwoList().1[Root(0) := Null], {}, 0) == {};
  }

  /** Without acyclicity: two objects that hold each other stay although nothing outside refers to them. */
  lemma CycleLeaks()
    ensures Counted(TwoCycle().0, TwoCycle().1, {}, {}, Null) && Floating(TwoCycle().0) == {}
    ensures (forall h | h in TwoCycle().1 :: h.Field?) && TwoCycle().0.Keys == {0, 1}
  {
    assert Holders(TwoCycle().1, {}, 0) == {Field(1, 0)} && Holders(TwoCycle().1, {}, 1) == {Field(0, 0)};
  }

  /** Resetting a member on an ownership cycle ends in a destructor that unrefs a dead object. */
  lemma ResetInCycleFails()
    ensures Counted(TwoCycle().0, TwoCycle().1, {}, {}, Null)
    ensures !Outlives(Floating(TwoCycle().0), TwoCycle().0.Keys, TwoCycle().1[Field(0, 0) := Null], Field(0, 0))
  {
    CycleLeaks();
    var after := TwoCycle().1[Field(0, 0) := Null];
    assert Holders(after, {}, 1) == {} && Holders(after, {}, 0) == {Field(1, 0)};
  }
}

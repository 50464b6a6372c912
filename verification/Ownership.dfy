/**
 Intrusive reference counting: `vsg::Object` carries its own count and every `vsg::ref_ptr` raises and
 drops it.  The C++ heap is a `Memory` object: it maps the address of each live object to that object's
 `_referenceCount`, and each `ref_ptr` (a slot: either a free-standing variable, or a data member of an
 object) to the `_ptr` stored in it.
 */
module Ownership {

  type Address = nat

  datatype Ptr = Null | To(obj: Address)

  /** Where a `ref_ptr` lives: on its own, or as the index-th member of the object at `owner`. */
  datatype Slot = Root(id: nat) | Field(owner: Address, index: nat)

  type Counts = map<Address, nat>
  type Slots = map<Slot, Ptr>

  /** The slots that own a share of `o`; the slots of `stale` no longer do. */
  ghost function Holders(slots: Slots, stale: set<Slot>, o: Address): set<Slot> {
    set s | s in slots && s !in stale && slots[s] == To(o)
  }

  function Drop(slots: Slots, s: Slot): (r: Slots)
    requires s in slots
    ensures r.Keys == slots.Keys - {s} && |r| == |slots| - 1
  {
    var r := map h | h in slots && h != s :: slots[h];
    assert r.Keys == slots.Keys - {s};
    assert |r| == |r.Keys| && |slots| == |slots.Keys|;
    r
  }

  /** `s` is a member of one of the objects in `dead`. */
  predicate OwnedBy(s: Slot, dead: set<Address>) {
    s.Field? && s.owner in dead
  }

  /** `K` keeps itself alive: each member has count zero (a raw pointer owns it), or is held by a
      free-standing `ref_ptr`, by a member of `K`, or by an object of `dying`. */
  ghost predicate Supported(counts: Counts, slots: Slots, stale: set<Slot>, K: set<Address>, dying: set<Address>) {
    forall o | o in K && o in counts && counts[o] > 0 ::
      exists h :: h in Holders(slots, stale, o) && (h.Root? || h.owner in K || h.owner in dying)
  }

  /** One reference if `p` points to `o`. */
  function Share(p: Ptr, o: Address): nat {
    if p == To(o) then 1 else 0
  }

  /** The counting invariant.  `dying` are objects inside their destructor, `stale` the slots whose
      reference was already given back although `_ptr` was not cleared yet, and `pending` the object
      that is about to lose a reference no slot accounts for. */
  ghost predicate Counted(counts: Counts, slots: Slots, dying: set<Address>, stale: set<Slot>, pending: Ptr) {
    && (forall o | o in counts :: counts[o] == |Holders(slots, stale, o)| + Share(pending, o))
    && (forall s | s in slots && s !in stale && slots[s].To? :: slots[s].obj in counts)
    && (forall s | s in slots && s.Field? :: s.owner in counts || s.owner in dying)
    && (pending.To? ==> pending.obj in counts)
    && dying !! counts.Keys
  }

  /** What happened to the heap between (c0, s0) and (c1, s1) while the members of `gone` were being
      destroyed: some objects were freed, the slots that went were members of freed objects or of `gone`,
      and every set of objects that supports itself is still there. */
  ghost predicate Shrunk(c0: Counts, s0: Slots, c1: Counts, s1: Slots, gone: set<Address>, dying: set<Address>,
                         stale: set<Slot>)
  {
    && c1.Keys <= c0.Keys
    && (forall h | h in s1 :: h in s0 && s1[h] == s0[h] && !OwnedBy(h, c0.Keys - c1.Keys))
    && (forall h | h in s0 && h !in s1 :: h !in stale && OwnedBy(h, c0.Keys - c1.Keys + gone))
    && (forall o | o in c1 :: c1[o] == 0 <==> c0[o] == 0)
    && (forall K | K <= c0.Keys && Supported(c0, s0, stale, K, dying) :: K <= c1.Keys)
  }

  /** A destructor ran into a stale slot: no self-supporting set contains the object that slot lives in. */
  ghost predicate Doomed(c0: Counts, s0: Slots, dying: set<Address>, stale: set<Slot>) {
    forall K | K <= c0.Keys && Supported(c0, s0, stale, K, dying) ::
      exists s :: s in stale && s.Field? && s.owner !in K && s.owner !in dying
  }

  lemma SupportPersists(c0: Counts, s0: Slots, c1: Counts, s1: Slots, gone: set<Address>, dying: set<Address>,
                        stale: set<Slot>, K: set<Address>)
    requires Shrunk(c0, s0, c1, s1, gone, dying, stale)
    requires gone !! dying && gone !! c0.Keys && dying !! c0.Keys
    requires K <= c0.Keys && Supported(c0, s0, stale, K, dying)
    ensures K <= c1.Keys && Supported(c1, s1, stale, K, dying) && Supported(c1, s1, stale, K, dying + gone)
  {
    forall o | o in K && c1[o] > 0
      ensures exists h :: h in Holders(s1, stale, o) && (h.Root? || h.owner in K || h.owner in dying)
    {
      var h :| h in Holders(s0, stale, o) && (h.Root? || h.owner in K || h.owner in dying);
      assert h in s1;
    }
  }

  /** Two stretches of destruction, the second one nested inside the destructors of `gone`. */
  lemma Nested(c0: Counts, s0: Slots, c1: Counts, s1: Slots, c2: Counts, s2: Slots, gone: set<Address>, dying: set<Address>,
               stale: set<Slot>)
    requires Shrunk(c0, s0, c1, s1, gone, dying, stale) && Shrunk(c1, s1, c2, s2, {}, dying + gone, stale)
    requires gone !! dying && gone !! c0.Keys && dying !! c0.Keys
    ensures Shrunk(c0, s0, c2, s2, gone, dying, stale)
  {
    forall K | K <= c0.Keys && Supported(c0, s0, stale, K, dying)
      ensures K <= c2.Keys
    {
      SupportPersists(c0, s0, c1, s1, gone, dying, stale, K);
    }
  }

  lemma HoldersAfterDrop(slots: Slots, stale: set<Slot>, s: Slot, x: Address)
    requires s in slots && s !in stale
    ensures |Holders(slots, stale, x)| == |Holders(Drop(slots, s), stale, x)| + Share(slots[s], x)
  {
    if slots[s] == To(x) {
      assert Holders(slots, stale, x) == Holders(Drop(slots, s), stale, x) + {s};
      assert s !in Holders(Drop(slots, s), stale, x);
    } else {
      assert Holders(slots, stale, x) == Holders(Drop(slots, s), stale, x);
    }
  }

  /** One `~ref_ptr`: the slot `s`, a member of `o`, goes. */
  lemma SlotGone(c0: Counts, s0: Slots, c1: Counts, s1: Slots, o: Address, dying: set<Address>, stale: set<Slot>, s: Slot)
    requires Shrunk(c0, s0, c1, s1, {o}, dying, stale) && Counted(c1, s1, dying + {o}, stale, Null)
    requires s in s1 && OwnedBy(s, {o}) && s !in stale
    ensures Shrunk(c0, s0, c1, Drop(s1, s), {o}, dying, stale)
    ensures Counted(c1, Drop(s1, s), dying + {o}, stale, s1[s])
  {
    forall x | x in c1
      ensures c1[x] == |Holders(Drop(s1, s), stale, x)| + Share(s1[s], x)
    {
      HoldersAfterDrop(s1, stale, s, x);
    }
  }

  lemma DoomedNested(c0: Counts, s0: Slots, c1: Counts, s1: Slots, gone: set<Address>, dying: set<Address>, stale: set<Slot>)
    requires Shrunk(c0, s0, c1, s1, gone, dying, stale)
    requires gone !! dying && gone !! c0.Keys && dying !! c0.Keys
    requires Doomed(c1, s1, dying + gone, stale)
    ensures Doomed(c0, s0, dying, stale)
  {
    forall K | K <= c0.Keys && Supported(c0, s0, stale, K, dying)
      ensures exists s :: s in stale && s.Field? && s.owner !in K && s.owner !in dying
    {
      SupportPersists(c0, s0, c1, s1, gone, dying, stale, K);
    }
  }

  /** The object `o` loses its last reference: no slot holds it, so it belongs to no self-supporting set. */
  lemma LastReference(c0: Counts, s0: Slots, o: Address, dying: set<Address>, stale: set<Slot>)
    requires Counted(c0, s0, dying, stale, To(o)) && c0[o] == 1
    ensures o in c0 && Counted(c0 - {o}, s0, dying + {o}, stale, Null)
    ensures forall K | K <= c0.Keys && Supported(c0, s0, stale, K, dying) ::
              K <= (c0 - {o}).Keys && Supported(c0 - {o}, s0, stale, K, dying)
  {
    assert Holders(s0, stale, o) == {};
    forall s | s in s0 && s !in stale && s0[s].To?
      ensures s0[s].obj in c0 - {o}
    {
      assert s0[s] == To(o) ==> s in Holders(s0, stale, o);
    }
    forall K | K <= c0.Keys && Supported(c0, s0, stale, K, dying)
      ensures K <= (c0 - {o}).Keys && Supported(c0 - {o}, s0, stale, K, dying)
    {
      assert o in K ==> exists h :: h in Holders(s0, stale, o);
    }
  }

  /** An object with other references just counts down. */
  lemma CountsDown(c0: Counts, s0: Slots, o: Address, dying: set<Address>, stale: set<Slot>)
    requires Counted(c0, s0, dying, stale, To(o)) && c0[o] > 1
    ensures Counted(c0[o := c0[o] - 1], s0, dying, stale, Null)
    ensures Shrunk(c0, s0, c0[o := c0[o] - 1], s0, {}, dying, stale)
  {
  }

  /** Freeing `o` and destroying its members, seen from before its last reference was dropped. */
  lemma WholeObject(c0: Counts, s0: Slots, o: Address, c1: Counts, s1: Slots, dying: set<Address>, stale: set<Slot>)
    requires Counted(c0, s0, dying, stale, To(o)) && c0[o] == 1
    requires Shrunk(c0 - {o}, s0, c1, s1, {o}, dying, stale) && forall s | s in s1 :: !OwnedBy(s, {o})
    ensures Shrunk(c0, s0, c1, s1, {}, dying, stale)
  {
    hide Counted, Supported, Holders;
    LastReference(c0, s0, o, dying, stale);
    assert c0.Keys - c1.Keys == (c0 - {o}).Keys - c1.Keys + {o};
  }

  lemma DoomedWhole(c0: Counts, s0: Slots, o: Address, dying: set<Address>, stale: set<Slot>)
    requires Counted(c0, s0, dying, stale, To(o)) && c0[o] == 1
    requires Doomed(c0 - {o}, s0, dying, stale)
    ensures Doomed(c0, s0, dying, stale)
  {
    LastReference(c0, s0, o, dying, stale);
  }

  lemma DoomedHere(c0: Counts, s0: Slots, c1: Counts, s1: Slots, o: Address, dying: set<Address>, stale: set<Slot>, s: Slot)
    requires Shrunk(c0, s0, c1, s1, {o}, dying, stale)
    requires o !in c0 && o !in dying
    requires s in stale && OwnedBy(s, {o})
    ensures Doomed(c0, s0, dying, stale)
  {
  }

  lemma FewerSlots(s0: Slots, s1: Slots)
    requires s1.Keys <= s0.Keys
    ensures |s1| <= |s0|
  {
    assert s0.Keys == s1.Keys + (s0.Keys - s1.Keys);
    assert |s0.Keys| == |s0| && |s1.Keys| == |s1|;
  }

  // ----- what a release leaves behind, independently of the order of destruction -----

  ghost function Floating(counts: Counts): set<Address> {
    set o | o in counts && counts[o] == 0
  }

  function Without(slots: Slots, dead: set<Address>): Slots {
    map s | s in slots && !OwnedBy(s, dead) :: slots[s]
  }

  /** Every object of `K` is owned by a raw pointer, by a free-standing `ref_ptr`, or by a member of `K`. */
  ghost predicate SelfSupporting(floating: set<Address>, slots: Slots, K: set<Address>) {
    forall o | o in K :: o in floating || exists h :: h in Holders(slots, {}, o) && (h.Root? || h.owner in K)
  }

  ghost predicate Largest(floating: set<Address>, slots: Slots, alive: set<Address>, kept: set<Address>) {
    && kept <= alive
    && SelfSupporting(floating, slots, kept)
    && forall K | K <= alive && SelfSupporting(floating, slots, K) :: K <= kept
  }

  /** The heap (counts, slots) is what remains of the objects `alive` and the slots `before`: the largest
      self-supporting set of objects, and the slots that are not members of freed objects. */
  ghost predicate Collected(floating: set<Address>, alive: set<Address>, before: Slots, counts: Counts, slots: Slots) {
    && Largest(floating, before, alive, counts.Keys)
    && slots == Without(before, alive - counts.Keys)
    && Floating(counts) == floating
  }

  /** The slot `s` outlives the collection of (alive, slots). */
  ghost predicate Outlives(floating: set<Address>, alive: set<Address>, slots: Slots, s: Slot) {
    s.Root? || exists K :: K <= alive && SelfSupporting(floating, slots, K) && s.owner in K
  }

  lemma SupportViews(c0: Counts, s0: Slots, stale: set<Slot>, view: Slots, K: set<Address>)
    requires K <= c0.Keys
    requires forall x :: Holders(s0, stale, x) == Holders(view, {}, x)
    ensures Supported(c0, s0, stale, K, {}) <==> SelfSupporting(Floating(c0), view, K)
  {
    forall o | o in K ensures o in Floating(c0) <==> c0[o] == 0 {}
  }

  lemma AllSupported(c: Counts, s: Slots)
    requires Counted(c, s, {}, {}, Null)
    ensures Collected(Floating(c), c.Keys, s, c, s)
  {
    forall o | o in c && o !in Floating(c)
      ensures exists h :: h in Holders(s, {}, o) && (h.Root? || h.owner in c.Keys)
    {
      assert Holders(s, {}, o) != {};
      var h :| h in Holders(s, {}, o);
    }
    assert Without(s, c.Keys - c.Keys) == s;
  }

  lemma FloatingKept(c0: Counts, s0: Slots, c1: Counts, s1: Slots, stale: set<Slot>)
    requires Shrunk(c0, s0, c1, s1, {}, {}, stale)
    ensures Floating(c1) == Floating(c0)
  {
    assert Supported(c0, s0, stale, Floating(c0), {});
  }

  lemma SlotsLeft(c0: Counts, s0: Slots, stale: set<Slot>, view: Slots, c1: Counts, s1: Slots, view1: Slots)
    requires Shrunk(c0, s0, c1, s1, {}, {}, stale)
    requires view.Keys == s0.Keys && view1.Keys == s1.Keys && forall h | h in s1 :: view1[h] == view[h]
    ensures view1 == Without(view, c0.Keys - c1.Keys)
  {
    forall h ensures h in view1 <==> h in view && !OwnedBy(h, c0.Keys - c1.Keys) {
      assert h in s0 && h !in s1 ==> OwnedBy(h, c0.Keys - c1.Keys + {});
    }
  }

  lemma KeptSupported(F: set<Address>, view: Slots, c1: Counts, view1: Slots)
    requires Counted(c1, view1, {}, {}, Null) && Floating(c1) == F
    requires view1.Keys <= view.Keys && forall h | h in view1 :: view1[h] == view[h]
    ensures SelfSupporting(F, view, c1.Keys)
  {
    AllSupported(c1, view1);
    forall x | x in c1 && x !in F
      ensures exists h :: h in Holders(view, {}, x) && (h.Root? || h.owner in c1.Keys)
    {
      var h :| h in Holders(view1, {}, x) && (h.Root? || h.owner in c1.Keys);
      assert h in Holders(view, {}, x);
    }
  }

  lemma SlotsShrunk(c0: Counts, s0: Slots, c1: Counts, s1: Slots, stale: set<Slot>, s: Slot)
    requires Shrunk(c0, s0, c1, s1, {}, {}, stale) && s in stale && s in s0
    ensures s in s1 && s1[s] == s0[s] && forall h | h in s1 :: h in s0 && s1[h] == s0[h]
  {
  }

  /** From the bookkeeping of the cascade to its order-free meaning. `view` is the heap with the released
      slot already cleared. */
  lemma ReleaseCollects(c0: Counts, s0: Slots, stale: set<Slot>, view: Slots, c1: Counts, s1: Slots, view1: Slots)
    requires Shrunk(c0, s0, c1, s1, {}, {}, stale)
    requires view.Keys == s0.Keys && view1.Keys == s1.Keys && forall h | h in s1 :: view1[h] == view[h]
    requires forall x :: Holders(s0, stale, x) == Holders(view, {}, x)
    requires Counted(c1, view1, {}, {}, Null)
    ensures Collected(Floating(c0), c0.Keys, view, c1, view1)
  {
    FloatingKept(c0, s0, c1, s1, stale);
    SlotsLeft(c0, s0, stale, view, c1, s1, view1);
    KeptSupported(Floating(c0), view, c1, view1);
    forall K | K <= c0.Keys && SelfSupporting(Floating(c0), view, K)
      ensures K <= c1.Keys
    {
      SupportViews(c0, s0, stale, view, K);
    }
  }

  /** The collection of (alive, before) followed by `rhs`, which held `p`, handing its pointer to `s`. */
  ghost predicate Moved(floating: set<Address>, alive: set<Address>, before: Slots, s: Slot, rhs: Slot, p: Ptr,
                        counts: Counts, slots: Slots)
  {
    && Largest(floating, before, alive, counts.Keys)
    && slots == Without(before, alive - counts.Keys)[s := p][rhs := Null]
    && Floating(counts) == floating
  }

  lemma MoveDone(floating: set<Address>, alive: set<Address>, before: Slots, s: Slot, rhs: Slot, counts: Counts, slots: Slots)
    requires Collected(floating, alive, before, counts, slots[s := Null])
    requires rhs in slots && rhs != s
    ensures Moved(floating, alive, before, s, rhs, slots[rhs], counts, slots[s := slots[rhs]][rhs := Null])
    ensures rhs in before && slots[rhs] == before[rhs]
  {
    assert slots[s := Null][s := slots[rhs]] == slots[s := slots[rhs]];
    assert slots[rhs] == slots[s := Null][rhs];
  }

  /** A slot outlives a collection exactly if it is still there afterwards. */
  lemma SlotsThatOutlive(floating: set<Address>, alive: set<Address>, before: Slots, counts: Counts, slots: Slots, s: Slot)
    requires Collected(floating, alive, before, counts, slots)
    requires s in before && (s.Field? ==> s.owner in alive)
    ensures s in slots <==> Outlives(floating, alive, before, s)
  {
  }

  // ----- one collection after another -----

  /** The slots without those of `gone`. */
  function DropAll(slots: Slots, gone: set<Slot>): Slots {
    map h | h in slots && h !in gone :: slots[h]
  }

  predicate Roots(slots: Slots, rs: set<Slot>) {
    forall h | h in rs :: h in slots && h.Root?
  }

  lemma WithoutTwice(before: Slots, gone: set<Slot>, alive: set<Address>, mid: set<Address>, kept: set<Address>)
    requires kept <= mid <= alive
    ensures Without(DropAll(Without(before, alive - mid), gone), mid - kept) == Without(DropAll(before, gone), alive - kept)
  {
  }

  lemma SupportAbove(floating: set<Address>, fewer: Slots, more: Slots, K: set<Address>)
    requires SelfSupporting(floating, fewer, K) && forall h | h in fewer :: h in more && more[h] == fewer[h]
    ensures SelfSupporting(floating, more, K)
  {
    forall o | o in K && o !in floating
      ensures exists h :: h in Holders(more, {}, o) && (h.Root? || h.owner in K)
    {
      var h :| h in Holders(fewer, {}, o) && (h.Root? || h.owner in K);
      assert h in Holders(more, {}, o);
    }
  }

  lemma SupportBelow(floating: set<Address>, slots: Slots, dead: set<Address>, K: set<Address>)
    requires SelfSupporting(floating, slots, K) && K !! dead
    ensures SelfSupporting(floating, Without(slots, dead), K)
  {
    forall o | o in K && o !in floating
      ensures exists h :: h in Holders(Without(slots, dead), {}, o) && (h.Root? || h.owner in K)
    {
      var h :| h in Holders(slots, {}, o) && (h.Root? || h.owner in K);
      assert h in Holders(Without(slots, dead), {}, o);
    }
  }

  /** Collecting and then collecting again, with the slots of `gone` dropped in between, is one collection of the
      first heap without them. */
  lemma CollectedTwice(floating: set<Address>, alive: set<Address>, before: Slots, counts: Counts, slots: Slots,
                       gone: set<Slot>, counts': Counts, slots': Slots)
    requires Collected(floating, alive, before, counts, slots)
    requires Collected(floating, counts.Keys, DropAll(slots, gone), counts', slots')
    ensures Collected(floating, alive, DropAll(before, gone), counts', slots')
  {
    var dead, fewer := alive - counts.Keys, DropAll(before, gone);
    WithoutTwice(before, gone, alive, counts.Keys, counts'.Keys);
    SupportAbove(floating, DropAll(slots, gone), fewer, counts'.Keys);
    forall K | K <= alive && SelfSupporting(floating, fewer, K) ensures K <= counts'.Keys {
      SupportAbove(floating, fewer, before, K);
      SupportBelow(floating, fewer, dead, K);
      assert Without(fewer, dead) == DropAll(slots, gone);
    }
  }

  lemma CollectedFloating(floating: set<Address>, alive: set<Address>, before: Slots, counts: Counts, slots: Slots)
    requires Collected(floating, alive, before, counts, slots)
    ensures Floating(counts) == floating
  {
  }

  /** No collection frees a free-standing pointer. */
  lemma RootsSurvive(floating: set<Address>, alive: set<Address>, before: Slots, counts: Counts, slots: Slots, rs: set<Slot>)
    requires Collected(floating, alive, before, counts, slots) && Roots(before, rs)
    ensures Roots(slots, rs)
  {
  }

  lemma DropNone(slots: Slots)
    ensures DropAll(slots, {}) == slots
  {
  }

  lemma DropOneMore(before: Slots, slots: Slots, gone: set<Slot>, s: Slot)
    requires s in slots
    ensures DropAll(slots, {s}) == Drop(slots, s)
    ensures DropAll(DropAll(before, gone), {s}) == DropAll(before, gone + {s})
  {
  }

  // ----- the bookkeeping of one `ref_ptr` -----

  /** `if (p) p->ref()` */
  function Raised(counts: Counts, p: Ptr): (r: Counts)
    requires p.To? ==> p.obj in counts
    ensures r.Keys == counts.Keys
    ensures forall x | x in counts :: r[x] == counts[x] + Share(p, x)
  {
    if p.To? then counts[p.obj := counts[p.obj] + 1] else counts
  }

  lemma HoldersAfterUpdate(slots: Slots, s: Slot, p: Ptr, x: Address)
    ensures |Holders(slots[s := p], {}, x)| + Share(if s in slots then slots[s] else Null, x) == |Holders(slots, {}, x)| + Share(p, x)
  {
    var H, H' := Holders(slots, {}, x), Holders(slots[s := p], {}, x);
    if p == To(x) {
      assert H' == H + {s};
      assert s in H <==> s in slots && slots[s] == To(x);
    } else {
      assert H' == H - {s};
      assert s in H <==> s in slots && slots[s] == To(x);
    }
  }

  lemma SlotAdded(c: Counts, slots: Slots, s: Slot, p: Ptr)
    requires Counted(c, slots, {}, {}, Null)
    requires s !in slots && (s.Field? ==> s.owner in c) && (p.To? ==> p.obj in c)
    ensures Counted(Raised(c, p), slots[s := p], {}, {}, Null)
  {
    hide Holders;
    forall x | x in c ensures Raised(c, p)[x] == |Holders(slots[s := p], {}, x)| { HoldersAfterUpdate(slots, s, p, x); }
  }

  lemma SlotDropped(c: Counts, slots: Slots, s: Slot)
    requires Counted(c, slots, {}, {}, Null) && s in slots
    ensures Counted(c, Drop(slots, s), {}, {}, slots[s])
  {
    forall x | x in c
      ensures c[x] == |Holders(Drop(slots, s), {}, x)| + Share(slots[s], x)
    {
      HoldersAfterDrop(slots, {}, s, x);
    }
  }

  lemma SlotRepointed(c: Counts, slots: Slots, s: Slot, p: Ptr)
    requires Counted(c, slots, {}, {}, Null)
    requires s in slots && p != slots[s] && (p.To? ==> p.obj in c)
    ensures Counted(Raised(c, p), slots[s := p], {}, {}, slots[s])
  {
    hide Holders;
    forall x | x in c
      ensures Raised(c, p)[x] == |Holders(slots[s := p], {}, x)| + Share(slots[s], x)
    {
      HoldersAfterUpdate(slots, s, p, x);
    }
  }

  /** `_ptr->unref()` while `_ptr` still holds the old value: the slot turns stale. */
  lemma SlotStale(c: Counts, slots: Slots, s: Slot)
    requires Counted(c, slots, {}, {}, Null) && s in slots && slots[s].To?
    ensures Counted(c, slots, {}, {s}, slots[s])
    ensures forall x :: Holders(slots, {s}, x) == Holders(slots[s := Null], {}, x)
  {
    forall x | x in c
      ensures c[x] == |Holders(slots, {s}, x)| + Share(slots[s], x)
    {
      HoldersAfterDrop(slots, {}, s, x);
      assert Holders(Drop(slots, s), {}, x) == Holders(slots, {s}, x);
    }
    forall x ensures Holders(slots, {s}, x) == Holders(slots[s := Null], {}, x) {}
  }

  lemma SlotCleared(c: Counts, slots: Slots, s: Slot)
    requires Counted(c, slots, {}, {s}, Null) && s in slots
    ensures Counted(c, slots[s := Null], {}, {}, Null)
  {
    forall x ensures Holders(slots, {s}, x) == Holders(slots[s := Null], {}, x) {}
  }

  /** A destructor reached the stale slot `s`, so nothing keeps the owner of `s` alive. */
  lemma StaleLost(c: Counts, slots: Slots, s: Slot)
    requires Counted(c, slots, {}, {}, Null) && s in slots && slots[s].To?
    requires Doomed(c, slots, {}, {s})
    ensures !Outlives(Floating(c), c.Keys, slots[s := Null], s)
  {
    SlotStale(c, slots, s);
    assert Supported(c, slots, {s}, {}, {});
    forall K | K <= c.Keys && SelfSupporting(Floating(c), slots[s := Null], K)
      ensures s.owner !in K
    {
      SupportViews(c, slots, {s}, slots[s := Null], K);
    }
  }

  lemma FreshObject(c: Counts, slots: Slots, o: Address, slots': Slots)
    requires Counted(c, slots, {}, {}, Null) && o !in c
    requires forall h | h in slots' :: (h in slots && slots'[h] == slots[h]) || (h.Field? && h.owner == o && slots'[h] == Null)
    requires forall h | h in slots :: h in slots'
    ensures Counted(c[o := 0], slots', {}, {}, Null)
  {
    forall x ensures Holders(slots', {}, x) == Holders(slots, {}, x) {}
    assert Holders(slots, {}, o) == {};
  }

  lemma SamePointer(c: Counts, slots: Slots, s: Slot)
    requires Counted(c, slots, {}, {}, Null) && s in slots
    ensures Floating(Raised(c, slots[s])) == Floating(c)
  {
    if slots[s].To? { assert s in Holders(slots, {}, slots[s].obj); }
  }

  lemma SamePointerCollects(c: Counts, slots: Slots, s: Slot)
    requires Counted(c, slots, {}, {}, Null) && s in slots
    ensures Collected(Floating(Raised(c, slots[s])), c.Keys, slots[s := slots[s]], c, slots)
  {
    SamePointer(c, slots, s);
    AllSupported(c, slots);
    assert slots[s := slots[s]] == slots;
  }

  lemma HoldersAfterExchange(slots: Slots, s: Slot, rhs: Slot, p: Ptr, x: Address)
    requires rhs in slots && p == (if s in slots then slots[s] else Null) && (s == rhs ==> p == slots[s])
    ensures |Holders(slots[s := slots[rhs]][rhs := p], {}, x)| == |Holders(slots, {}, x)|
  {
    HoldersAfterUpdate(slots, s, slots[rhs], x);
    HoldersAfterUpdate(slots[s := slots[rhs]], rhs, p, x);
  }

  /** Two slots exchange their pointers; a slot that was not there counts as null. */
  lemma SlotsExchanged(c: Counts, slots: Slots, s: Slot, rhs: Slot, p: Ptr)
    requires Counted(c, slots, {}, {}, Null) && rhs in slots && (s.Field? ==> s.owner in c)
    requires p == (if s in slots then slots[s] else Null) && (s == rhs ==> p == slots[s])
    ensures Counted(c, slots[s := slots[rhs]][rhs := p], {}, {}, Null)
  {
    hide Holders;
    forall x | x in c ensures c[x] == |Holders(slots[s := slots[rhs]][rhs := p], {}, x)| {
      HoldersAfterExchange(slots, s, rhs, p, x);
    }
  }

  /** A share is given up without any deletion. */
  lemma SlotForgotten(c: Counts, slots: Slots, s: Slot)
    requires Counted(c, slots, {}, {}, Null) && s in slots && slots[s].To?
    ensures c[slots[s].obj] > 0
    ensures Counted(c[slots[s].obj := c[slots[s].obj] - 1], slots[s := Null], {}, {}, Null)
  {
    forall x | x in c ensures c[x] == |Holders(slots[s := Null], {}, x)| + Share(slots[s], x) {
      HoldersAfterUpdate(slots, s, Null, x);
    }
  }

  class Memory {
    var counts: Counts
    var slots: Slots

    ghost predicate Valid()
      reads this
    {
      Counted(counts, slots, {}, {}, Null)
    }

    /** The heap before any object is created. */
    constructor ()
      ensures Valid() && counts == map[] && slots == map[]
    {
      counts, slots := map[], map[];
    }

    /** `Object::unref`: the last reference ends the object's life. `ok` is false when a destructor is
        about to release a reference to an object that no longer exists. */
    method Unref(o: Address, ghost dying: set<Address>, ghost stale: set<Slot>) returns (ok: bool)
      requires Counted(counts, slots, dying, stale, To(o))
      requires forall s | s in stale && s in slots :: slots[s].To? && (slots[s].obj == o || slots[s].obj !in counts)
      modifies this
      ensures ok ==> Counted(counts, slots, dying, stale, Null)
      ensures ok ==> Shrunk(old(counts), old(slots), counts, slots, {}, dying, stale)
      ensures !ok ==> Doomed(old(counts), old(slots), dying, stale)
      decreases |slots|, 2
    {
      ok := true;
      assert counts[o] >= 1;
      if counts[o] > 1 {
        CountsDown(counts, slots, o, dying, stale);
        counts := counts[o := counts[o] - 1];
      } else {
        ghost var c0, s0 := counts, slots;
        assert Counted(c0 - {o}, s0, dying + {o}, stale, Null) by { LastReference(c0, s0, o, dying, stale); }
        counts := counts - {o};
        assert forall s | s in stale && s in slots :: slots[s].obj !in counts;
        ok := DestroyMembers(o, dying, stale);
        if ok {
          WholeObject(c0, s0, o, counts, slots, dying, stale);
        } else {
          DoomedWhole(c0, s0, o, dying, stale);
        }
      }
    }

    /** The implicit member destructors of the object at `o`, in any order. */
    method DestroyMembers(o: Address, ghost dying: set<Address>, ghost stale: set<Slot>) returns (ok: bool)
      requires o !in counts && o !in dying
      requires Counted(counts, slots, dying + {o}, stale, Null)
      requires forall s | s in stale && s in slots :: slots[s].To? && slots[s].obj !in counts
      modifies this
      ensures ok ==> Counted(counts, slots, dying, stale, Null)
      ensures ok ==> Shrunk(old(counts), old(slots), counts, slots, {o}, dying, stale)
      ensures ok ==> forall s | s in slots :: !OwnedBy(s, {o})
      ensures !ok ==> Doomed(old(counts), old(slots), dying, stale)
      decreases |slots|, 1
    {
      ok := true;
      ghost var c0, s0 := counts, slots;
      while exists s :: s in slots && OwnedBy(s, {o})
        invariant ok
        invariant Counted(counts, slots, dying + {o}, stale, Null)
        invariant Shrunk(c0, s0, counts, slots, {o}, dying, stale)
        invariant |slots| <= |s0|
        decreases |slots|
      {
        var s :| s in slots && OwnedBy(s, {o});
        ok := DestroyMember(s, o, dying, stale, c0, s0);
        if !ok { return; }
      }
    }

    /** `~ref_ptr` for the member `s` of the object at `o`; `c0` and `s0` are the heap when the
        destruction of `o` began. */
    method DestroyMember(s: Slot, o: Address, ghost dying: set<Address>, ghost stale: set<Slot>,
                         ghost c0: Counts, ghost s0: Slots)
      returns (ok: bool)
      requires s in slots && OwnedBy(s, {o}) && o !in c0 && o !in dying
      requires Counted(counts, slots, dying + {o}, stale, Null)
      requires Shrunk(c0, s0, counts, slots, {o}, dying, stale)
      requires dying !! c0.Keys
      requires forall h | h in stale && h in s0 :: s0[h].To? && s0[h].obj !in c0
      modifies this
      ensures ok ==> Counted(counts, slots, dying + {o}, stale, Null)
      ensures ok ==> Shrunk(c0, s0, counts, slots, {o}, dying, stale)
      ensures ok ==> |slots| < |old(slots)|
      ensures !ok ==> Doomed(c0, s0, dying, stale)
      decreases |slots|, 0
    {
      ok := true;
      var p := slots[s];
      assert s in stale ==> p.To? && p.obj !in counts;
      if p.To? && p.obj !in counts {
        DoomedHere(c0, s0, counts, slots, o, dying, stale, s);
        return false;
      }
      SlotGone(c0, s0, counts, slots, o, dying, stale, s);
      slots := Drop(slots, s);
      if p.To? {
        ghost var c1, s1 := counts, slots;
        ok := Unref(p.obj, dying + {o}, stale);
        if ok {
          Nested(c0, s0, c1, s1, counts, slots, {o}, dying, stale);
          FewerSlots(s1, slots);
        } else {
          DoomedNested(c0, s0, c1, s1, {o}, dying, stale);
        }
      }
    }

    /** `new T`: an object nobody references yet, with `members` null `ref_ptr` members. */
    method New(o: Address, members: nat)
      requires Valid() && o !in counts
      modifies this
      ensures Valid()
      ensures counts == old(counts)[o := 0]
      ensures slots == old(slots) + map i | 0 <= i < members :: Field(o, i) := Null
    {
      counts := counts[o := 0];
      slots := slots + map i | 0 <= i < members :: Field(o, i) := Null;
      FreshObject(old(counts), old(slots), o, slots);
    }

    /** `ref_ptr(T* ptr)`, and `ref_ptr()` when `p` is null. */
    method ConstructRaw(s: Slot, p: Ptr)
      requires Valid() && s !in slots && (s.Field? ==> s.owner in counts) && (p.To? ==> p.obj in counts)
      modifies this
      ensures Valid()
      ensures slots == old(slots)[s := p] && counts == Raised(old(counts), p)
    {
      SlotAdded(counts, slots, s, p);
      slots := slots[s := p];
      counts := Raised(counts, p);
    }

    /** `ref_ptr(const ref_ptr& rhs)` */
    method ConstructCopy(s: Slot, rhs: Slot)
      requires Valid() && s !in slots && rhs in slots && (s.Field? ==> s.owner in counts)
      modifies this
      ensures Valid()
      ensures slots == old(slots)[s := old(slots)[rhs]] && counts == Raised(old(counts), old(slots)[rhs])
    {
      ConstructRaw(s, slots[rhs]);
    }

    /** `_ptr = rhs._ptr; rhs._ptr = nullptr;` for a slot that owns nothing at the moment. */
    method TakeFrom(s: Slot, rhs: Slot)
      requires rhs in slots && rhs != s && (s.Field? ==> s.owner in counts)
      requires Counted(counts, slots[s := Null], {}, {}, Null)
      modifies this
      ensures Valid()
      ensures counts == old(counts) && slots == old(slots)[s := old(slots)[rhs]][rhs := Null]
    {
      ghost var t := slots[s := Null];
      SlotsExchanged(counts, t, s, rhs, Null);
      slots := slots[s := slots[rhs]];
      assert slots == t[s := t[rhs]];
      slots := slots[rhs := Null];
    }

    /** `ref_ptr(ref_ptr<R>&& rhs)`: no count changes. */
    method ConstructMove(s: Slot, rhs: Slot)
      requires Valid() && s !in slots && rhs in slots && (s.Field? ==> s.owner in counts)
      modifies this
      ensures Valid()
      ensures slots == old(slots)[s := old(slots)[rhs]][rhs := Null] && counts == old(counts)
    {
      SlotAdded(counts, slots, s, Null);
      TakeFrom(s, rhs);
    }

    /** `if (p) p->unref();` for a reference no slot holds any more. */
    method DropReference(p: Ptr)
      requires Counted(counts, slots, {}, {}, p)
      modifies this
      ensures Valid()
      ensures Collected(Floating(old(counts)), old(counts).Keys, old(slots), counts, slots)
    {
      if p.To? {
        ghost var c0, s0 := counts, slots;
        var ok := Unref(p.obj, {}, {});
        assert Supported(c0, s0, {}, {}, {});
        ReleaseCollects(c0, s0, {}, s0, counts, slots, slots);
      } else {
        AllSupported(counts, slots);
      }
    }

    /** `~ref_ptr` of a free-standing pointer. */
    method Destroy(s: Slot)
      requires Valid() && s in slots && s.Root?
      modifies this
      ensures Valid()
      ensures Collected(Floating(old(counts)), old(counts).Keys, Drop(old(slots), s), counts, slots)
    {
      var p := slots[s];
      SlotDropped(counts, slots, s);
      slots := Drop(slots, s);
      DropReference(p);
    }

    /** `~ref_ptr` of a set of free-standing pointers, in any order. */
    method DestroyAll(roots: set<Slot>)
      requires Valid() && Roots(slots, roots)
      modifies this
      ensures Valid()
      ensures Collected(Floating(old(counts)), old(counts).Keys, DropAll(old(slots), roots), counts, slots)
    {
      hide Collected, Counted, DropAll, Floating;
      ghost var F, alive, s0, gone := Floating(counts), counts.Keys, slots, {};
      var rest := roots;
      AllSupported(counts, slots);
      DropNone(s0);
      while rest != {}
        invariant Valid() && gone + rest == roots && gone !! rest && Roots(slots, rest)
        invariant Collected(F, alive, DropAll(s0, gone), counts, slots)
        decreases rest
      {
        var s :| s in rest;
        ghost var c1, s1 := counts, slots;
        DropOneMore(s0, slots, gone, s);
        CollectedFloating(F, alive, DropAll(s0, gone), counts, slots);
        Destroy(s);
        CollectedTwice(F, alive, DropAll(s0, gone), c1, s1, {s}, counts, slots);
        rest, gone := rest - {s}, gone + {s};
        RootsSurvive(F, c1.Keys, Drop(s1, s), counts, slots, rest);
      }
      assert gone == roots;
    }

    /** `_ptr = p; if (_ptr) _ptr->ref();` */
    method Repoint(s: Slot, p: Ptr)
      requires Valid() && s in slots && slots[s] != p && (p.To? ==> p.obj in counts)
      modifies this
      ensures Counted(counts, slots, {}, {}, old(slots)[s])
      ensures slots == old(slots)[s := p] && counts == Raised(old(counts), p) && counts.Keys == old(counts).Keys
    {
      SlotRepointed(counts, slots, s, p);
      slots := slots[s := p];
      counts := Raised(counts, p);
    }

    /** `operator=(T* ptr)`: the new object is referenced before the old one is released. */
    method AssignRaw(s: Slot, p: Ptr)
      requires Valid() && s in slots && (p.To? ==> p.obj in counts)
      modifies this
      ensures Valid()
      ensures Collected(Floating(Raised(old(counts), p)), old(counts).Keys, old(slots)[s := p], counts, slots)
    {
      if p == slots[s] {
        SamePointerCollects(counts, slots, s);
        return;
      }
      var temp := slots[s];
      Repoint(s, p);
      DropReference(temp);
    }

    /** `operator=(const ref_ptr& rhs)` */
    method AssignCopy(s: Slot, rhs: Slot)
      requires Valid() && s in slots && rhs in slots
      modifies this
      ensures Valid()
      ensures Collected(Floating(old(counts)), old(counts).Keys, old(slots)[s := old(slots)[rhs]], counts, slots)
    {
      SamePointer(counts, slots, rhs);
      AssignRaw(s, slots[rhs]);
    }

    /** `reset()`: releases first and clears `_ptr` afterwards. `ok` is false when the cascade destroys the
        very slot that is being reset, whose destructor then unrefs a dead object. */
    method Reset(s: Slot) returns (ok: bool)
      requires Valid() && s in slots
      modifies this
      ensures ok ==> Valid()
      ensures ok ==> Collected(Floating(old(counts)), old(counts).Keys, old(slots)[s := Null], counts, slots)
      ensures ok <==> Outlives(Floating(old(counts)), old(counts).Keys, old(slots)[s := Null], s)
    {
      ok := Release(s);
      if ok { slots := slots[s := Null]; }
    }

    /** `if (_ptr) _ptr->unref();` with `_ptr` left as it is. */
    method Release(s: Slot) returns (ok: bool)
      requires Valid() && s in slots
      modifies this
      ensures ok ==> s in slots && Counted(counts, slots[s := Null], {}, {}, Null)
      ensures ok ==> Collected(Floating(old(counts)), old(counts).Keys, old(slots)[s := Null], counts, slots[s := Null])
      ensures ok <==> Outlives(Floating(old(counts)), old(counts).Keys, old(slots)[s := Null], s)
    {
      hide Shrunk, Doomed, Collected, Outlives, Holders, Floating, Supported;
      ok := true;
      ghost var c0, s0 := counts, slots;
      var p := slots[s];
      if p.To? {
        SlotStale(counts, slots, s);
        ok := Unref(p.obj, {}, {s});
        if ok {
          SlotsShrunk(c0, s0, counts, slots, {s}, s);
          SlotCleared(counts, slots, s);
          ReleaseCollects(c0, s0, {s}, s0[s := Null], counts, slots, slots[s := Null]);
        } else {
          StaleLost(c0, s0, s);
        }
      } else {
        assert slots[s := Null] == slots;
        AllSupported(counts, slots);
      }
      if ok { SlotsThatOutlive(Floating(c0), c0.Keys, s0[s := Null], counts, slots[s := Null], s); }
    }

    /** `operator=(ref_ptr<R>&& rhs)`: releases the old target first, then reads `rhs`. `ok` is false when
        that release destroys `rhs`, or this slot. */
    method AssignMove(s: Slot, rhs: Slot) returns (ok: bool)
      requires Valid() && s in slots && rhs in slots
      modifies this
      ensures ok ==> Valid()
      ensures old(slots[rhs] == slots[s]) ==> ok && counts == old(counts) && slots == old(slots)
      ensures old(slots[rhs] != slots[s]) && ok ==>
                Moved(Floating(old(counts)), old(counts).Keys, old(slots)[s := Null], s, rhs, old(slots)[rhs], counts, slots)
      ensures old(slots[rhs] != slots[s]) ==>
                (ok <==> && Outlives(Floating(old(counts)), old(counts).Keys, old(slots)[s := Null], s)
                         && Outlives(Floating(old(counts)), old(counts).Keys, old(slots)[s := Null], rhs))
    {
      if slots[rhs] == slots[s] { return true; }
      ok := Release(s);
      if !ok { return; }
      ghost var F, alive, cleared, mid := Floating(old(counts)), old(counts).Keys, old(slots)[s := Null], slots;
      SlotsThatOutlive(F, alive, cleared, counts, slots[s := Null], rhs);
      if rhs !in slots { return false; }
      TakeFrom(s, rhs);
      MoveDone(F, alive, cleared, s, rhs, counts, mid);
    }

    /** `swap(ref_ptr& rhs)` */
    method Swap(s: Slot, rhs: Slot)
      requires Valid() && s in slots && rhs in slots
      modifies this
      ensures Valid()
      ensures counts == old(counts) && slots == old(slots)[s := old(slots)[rhs]][rhs := old(slots)[s]]
    {
      SlotsExchanged(counts, slots, s, rhs, slots[s]);
      var temp := slots[s];
      slots := slots[s := slots[rhs]];
      slots := slots[rhs := temp];
    }

    /** `release_nodelete()`: hands out the raw pointer; the object stays even when the count reaches zero. */
    method ReleaseNoDelete(s: Slot) returns (p: Ptr)
      requires Valid() && s in slots
      modifies this
      ensures Valid() && p == old(slots)[s]
      ensures slots == old(slots)[s := Null] && counts.Keys == old(counts).Keys
    {
      p := slots[s];
      if p.To? {
        SlotForgotten(counts, slots, s);
        counts := counts[p.obj := counts[p.obj] - 1];
      } else {
        assert slots[s := Null] == slots;
      }
      slots := slots[s := Null];
    }
  }
}

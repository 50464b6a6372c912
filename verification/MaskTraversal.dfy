/** Traversal of a scene graph under masks: switches, layers and views gate what a visitor reaches. */
module MaskTraversal {

  type Bit = b: nat | b < 64

  /** A 64-bit mask as the set of its bits: `&` is intersection, `|` is union. */
  type Mask = set<Bit>

  const MASK_OFF: Mask := {}
  const MASK_ALL: Mask := set b: Bit | 0 <= b < 64 :: b

  datatype Child = Child(mask: Mask, node: Node)

  datatype Node =
    | Leaf(id: nat)
    | Group(children: seq<Node>)
    | Switch(choices: seq<Child>)
    | Layer(mask: Mask, child: Node)
    | View(mask: Mask, children: seq<Node>)

  /** The test every gate makes. */
  predicate Open(traversal: Mask, overriding: Mask, mask: Mask) { traversal * (overriding + mask) != MASK_OFF }

  /** A visitor that traverses every node it is applied to and notes the leaves in the order it meets them. */
  class Visitor {
    var traversalMask: Mask
    var overrideMask: Mask
    var visited: seq<nat>

    method Accept(node: Node)
      modifies this
      ensures traversalMask == old(traversalMask) && overrideMask == old(overrideMask)
      ensures visited == old(visited) + Reached(node, traversalMask, overrideMask)
      decreases node
    {
      match node
      case Leaf(id) => visited := visited + [id];
      case Group(children) => TraverseGroup(children);
      case Switch(choices) => TraverseSwitch(choices);
      case Layer(mask, child) =>
        if traversalMask * (overrideMask + mask) != MASK_OFF { Accept(child); }
      case View(mask, children) =>
        if traversalMask * (overrideMask + mask) == MASK_OFF { return; }
        var cachedTraversalMask := traversalMask;
        traversalMask := traversalMask * mask;
        TraverseGroup(children);
        traversalMask := cachedTraversalMask;
    }

    method TraverseGroup(children: seq<Node>)
      modifies this
      ensures traversalMask == old(traversalMask) && overrideMask == old(overrideMask)
      ensures visited == old(visited) + ReachedInGroup(children, traversalMask, overrideMask)
      decreases children
    {
      for i := 0 to |children|
        invariant traversalMask == old(traversalMask) && overrideMask == old(overrideMask)
        invariant visited == old(visited) + ReachedInGroup(children[..i], traversalMask, overrideMask)
      {
        assert children[..i + 1][..i] == children[..i];
        Accept(children[i]);
      }
      assert children[..|children|] == children;
    }

    method TraverseSwitch(choices: seq<Child>)
      modifies this
      ensures traversalMask == old(traversalMask) && overrideMask == old(overrideMask)
      ensures visited == old(visited) + ReachedInSwitch(choices, traversalMask, overrideMask)
      decreases choices
    {
      for i := 0 to |choices|
        invariant traversalMask == old(traversalMask) && overrideMask == old(overrideMask)
        invariant visited == old(visited) + ReachedInSwitch(choices[..i], traversalMask, overrideMask)
      {
        assert choices[..i + 1][..i] == choices[..i];
        var child := choices[i];
        assert (choices decreases to child) && (child decreases to child.node);
        if traversalMask * (overrideMask + child.mask) != MASK_OFF { Accept(child.node); }
      }
      assert choices[..|choices|] == choices;
    }
  }

  // ----- what a traversal reaches, node by node -----

  function Reached(node: Node, traversal: Mask, overriding: Mask): seq<nat>
    decreases node
  {
    match node
    case Leaf(id) => [id]
    case Group(children) => ReachedInGroup(children, traversal, overriding)
    case Switch(choices) => ReachedInSwitch(choices, traversal, overriding)
    case Layer(mask, child) => if Open(traversal, overriding, mask) then Reached(child, traversal, overriding) else []
    case View(mask, children) =>
      if Open(traversal, overriding, mask) then ReachedInGroup(children, traversal * mask, overriding) else []
  }

  function ReachedInGroup(children: seq<Node>, traversal: Mask, overriding: Mask): seq<nat>
    decreases children
  {
    if children == [] then []
    else
      var last := |children| - 1;
      ReachedInGroup(children[..last], traversal, overriding) + Reached(children[last], traversal, overriding)
  }

  function ReachedInSwitch(choices: seq<Child>, traversal: Mask, overriding: Mask): seq<nat>
    decreases choices
  {
    if choices == [] then []
    else
      var last := |choices| - 1;
      ReachedInSwitch(choices[..last], traversal, overriding)
      + ReachedThrough(choices[last], traversal, overriding)
  }

  function ReachedThrough(choice: Child, traversal: Mask, overriding: Mask): seq<nat>
    decreases choice
  {
    if Open(traversal, overriding, choice.mask) then Reached(choice.node, traversal, overriding) else []
  }

  // ----- the leaves of a scene, each with the gates on its path -----

  /** A gate; a view also narrows the traversal mask for what lies below it. */
  datatype Gate = Gate(mask: Mask, narrows: bool)

  datatype Place = Place(gates: seq<Gate>, leaf: nat)

  function Behind(gate: Gate, places: seq<Place>): (r: seq<Place>)
    ensures |r| == |places|
  {
    seq(|places|, i requires 0 <= i < |places| => Place([gate] + places[i].gates, places[i].leaf))
  }

  /** Every place where a leaf stands, from left to right, whatever the masks. */
  function Places(node: Node): seq<Place>
    decreases node
  {
    match node
    case Leaf(id) => [Place([], id)]
    case Group(children) => PlacesInGroup(children)
    case Switch(choices) => PlacesInSwitch(choices)
    case Layer(mask, child) => Behind(Gate(mask, false), Places(child))
    case View(mask, children) => Behind(Gate(mask, true), PlacesInGroup(children))
  }

  function PlacesInGroup(children: seq<Node>): seq<Place>
    decreases children
  {
    if children == [] then []
    else PlacesInGroup(children[..|children| - 1]) + Places(children[|children| - 1])
  }

  function PlacesInSwitch(choices: seq<Child>): seq<Place>
    decreases choices
  {
    if choices == [] then []
    else
      PlacesInSwitch(choices[..|choices| - 1]) + PlacesThrough(choices[|choices| - 1])
  }

  function PlacesThrough(choice: Child): seq<Place>
    decreases choice
  {
    Behind(Gate(choice.mask, false), Places(choice.node))
  }

  /** The traversal mask below the first k gates: narrowed by the views among them. */
  function Narrowed(gates: seq<Gate>, k: nat, traversal: Mask): Mask
    requires k <= |gates|
  {
    if k == 0 then traversal
    else
      var above := Narrowed(gates, k - 1, traversal);
      if gates[k - 1].narrows then above * gates[k - 1].mask else above
  }

  /** At every gate on the path some bit of the traversal mask has not been taken away by the views above, and is in
      the gate's mask or overrides it. */
  predicate Passes(gates: seq<Gate>, traversal: Mask, overriding: Mask) {
    forall k | 0 <= k < |gates| :: Bits(gates, k, traversal, overriding)
  }

  predicate Bits(gates: seq<Gate>, k: nat, traversal: Mask, overriding: Mask)
    requires k < |gates|
  {
    exists b | b in traversal ::
      && (forall j | 0 <= j < k && gates[j].narrows :: b in gates[j].mask)
      && (b in gates[k].mask || b in overriding)
  }

  lemma {:induction false} NarrowedBits(gates: seq<Gate>, k: nat, t: Mask, b: Bit)
    requires k <= |gates|
    ensures b in Narrowed(gates, k, t) <==> b in t && forall j | 0 <= j < k && gates[j].narrows :: b in gates[j].mask
  {
    if k > 0 { NarrowedBits(gates, k - 1, t, b); }
  }

  lemma OneGate(mask: Mask, t: Mask, o: Mask)
    ensures Open(t, o, mask) <==> exists b | b in t :: b in mask || b in o
  {
    if Open(t, o, mask) {
      var b :| b in t * (o + mask);
      assert b in t;
    }
    forall b | b in t && (b in mask || b in o) ensures Open(t, o, mask) { assert b in t * (o + mask); }
  }

  /** The bits at a gate are what the gate tests. */
  lemma OpenIffBits(gates: seq<Gate>, k: nat, t: Mask, o: Mask)
    requires k < |gates|
    ensures Open(Narrowed(gates, k, t), o, gates[k].mask) <==> Bits(gates, k, t, o)
  {
    hide Open, Narrowed;
    OneGate(gates[k].mask, Narrowed(gates, k, t), o);
    forall b: Bit
      ensures b in Narrowed(gates, k, t) <==> b in t && forall j | 0 <= j < k && gates[j].narrows :: b in gates[j].mask
    {
      NarrowedBits(gates, k, t, b);
    }
  }

  /** Every gate is open for the mask that the views above it leave. */
  predicate AllOpen(gates: seq<Gate>, traversal: Mask, overriding: Mask) {
    forall k | 0 <= k < |gates| :: Open(Narrowed(gates, k, traversal), overriding, gates[k].mask)
  }

  lemma PassesIffOpen(gates: seq<Gate>, t: Mask, o: Mask)
    ensures Passes(gates, t, o) <==> AllOpen(gates, t, o)
  {
    hide Open, Narrowed, Bits;
    forall k | 0 <= k < |gates| ensures Open(Narrowed(gates, k, t), o, gates[k].mask) <==> Bits(gates, k, t, o) {
      OpenIffBits(gates, k, t, o);
    }
  }

  /** The leaves at the places whose gates all pass. */
  function Passing(places: seq<Place>, traversal: Mask, overriding: Mask): seq<nat> {
    if places == [] then []
    else
      var last := places[|places| - 1];
      Passing(places[..|places| - 1], traversal, overriding)
      + if Passes(last.gates, traversal, overriding) then [last.leaf] else []
  }

  lemma {:induction false} PassingSplits(a: seq<Place>, b: seq<Place>, t: Mask, o: Mask)
    ensures Passing(a + b, t, o) == Passing(a, t, o) + Passing(b, t, o)
  {
    if b == [] {
      assert a + b == a;
    } else {
      assert (a + b)[..|a + b| - 1] == a + b[..|b| - 1];
      PassingSplits(a, b[..|b| - 1], t, o);
    }
  }

  function Below(gate: Gate, t: Mask): Mask { if gate.narrows then t * gate.mask else t }

  lemma {:induction false} NarrowedBelow(gate: Gate, gates: seq<Gate>, k: nat, t: Mask)
    requires k <= |gates|
    ensures Narrowed([gate] + gates, k + 1, t) == Narrowed(gates, k, Below(gate, t))
  {
    if k > 0 { NarrowedBelow(gate, gates, k - 1, t); }
  }

  lemma OpenBehind(gate: Gate, gates: seq<Gate>, t: Mask, o: Mask)
    ensures AllOpen([gate] + gates, t, o) <==> Open(t, o, gate.mask) && AllOpen(gates, Below(gate, t), o)
  {
    var all := [gate] + gates;
    assert Narrowed(all, 0, t) == t;
    forall k | 0 <= k < |gates|
      ensures Open(Narrowed(all, k + 1, t), o, all[k + 1].mask)
         <==> Open(Narrowed(gates, k, Below(gate, t)), o, gates[k].mask)
    {
      NarrowedBelow(gate, gates, k, t);
    }
    if AllOpen(all, t, o) {
      forall k | 0 <= k < |gates| ensures Open(Narrowed(gates, k, Below(gate, t)), o, gates[k].mask) {
        assert Open(Narrowed(all, k + 1, t), o, all[k + 1].mask);
      }
    }
  }

  lemma PassesBehind(gate: Gate, gates: seq<Gate>, t: Mask, o: Mask)
    ensures Passes([gate] + gates, t, o) <==> Open(t, o, gate.mask) && Passes(gates, Below(gate, t), o)
  {
    hide Passes, AllOpen, Open, Below;
    PassesIffOpen([gate] + gates, t, o);
    PassesIffOpen(gates, Below(gate, t), o);
    OpenBehind(gate, gates, t, o);
  }

  lemma {:induction false} PassingBehind(gate: Gate, places: seq<Place>, t: Mask, o: Mask)
    ensures Passing(Behind(gate, places), t, o)
         == if Open(t, o, gate.mask) then Passing(places, Below(gate, t), o) else []
  {
    if places != [] {
      var front := places[..|places| - 1];
      assert Behind(gate, places)[..|places| - 1] == Behind(gate, front);
      PassingBehind(gate, front, t, o);
      PassesBehind(gate, places[|places| - 1].gates, t, o);
    }
  }

  /** A traversal reaches a leaf exactly where every gate on its path passes, and in order. */
  lemma {:induction false} ReachesWhatPasses(node: Node, t: Mask, o: Mask)
    ensures Reached(node, t, o) == Passing(Places(node), t, o)
    decreases node
  {
    match node
    case Leaf(id) =>
    case Group(children) => GroupReachesWhatPasses(children, t, o);
    case Switch(choices) => SwitchReachesWhatPasses(choices, t, o);
    case Layer(mask, child) =>
      ReachesWhatPasses(child, t, o);
      PassingBehind(Gate(mask, false), Places(child), t, o);
    case View(mask, children) =>
      GroupReachesWhatPasses(children, t * mask, o);
      PassingBehind(Gate(mask, true), PlacesInGroup(children), t, o);
  }

  lemma {:induction false} GroupReachesWhatPasses(children: seq<Node>, t: Mask, o: Mask)
    ensures ReachedInGroup(children, t, o) == Passing(PlacesInGroup(children), t, o)
    decreases children
  {
    if children != [] {
      var last := |children| - 1;
      GroupReachesWhatPasses(children[..last], t, o);
      ReachesWhatPasses(children[last], t, o);
      PassingSplits(PlacesInGroup(children[..last]), Places(children[last]), t, o);
    }
  }

  lemma {:induction false} SwitchReachesWhatPasses(choices: seq<Child>, t: Mask, o: Mask)
    ensures ReachedInSwitch(choices, t, o) == Passing(PlacesInSwitch(choices), t, o)
    decreases choices
  {
    if choices != [] {
      var last := |choices| - 1;
      SwitchReachesWhatPasses(choices[..last], t, o);
      ChoiceReachesWhatPasses(choices[last], t, o);
      PassingSplits(PlacesInSwitch(choices[..last]), PlacesThrough(choices[last]), t, o);
    }
  }

  lemma {:induction false} ChoiceReachesWhatPasses(choice: Child, t: Mask, o: Mask)
    ensures ReachedThrough(choice, t, o) == Passing(PlacesThrough(choice), t, o)
    decreases choice
  {
    ReachesWhatPasses(choice.node, t, o);
    PassingBehind(Gate(choice.mask, false), Places(choice.node), t, o);
  }

  // ----- larger masks -----

  predicate Covers(large: Mask, small: Mask) { small <= large }

  lemma {:induction false} NarrowedCovers(gates: seq<Gate>, k: nat, t: Mask, t': Mask)
    requires k <= |gates| && Covers(t', t)
    ensures Covers(Narrowed(gates, k, t'), Narrowed(gates, k, t))
  {
    if k > 0 { NarrowedCovers(gates, k - 1, t, t'); }
  }

  lemma PassesCovers(gates: seq<Gate>, t: Mask, o: Mask, t': Mask, o': Mask)
    requires Covers(t', t) && Covers(o', o) && Passes(gates, t, o)
    ensures Passes(gates, t', o')
  {
    hide Bits, Passes;
    PassesIffOpen(gates, t, o);
    PassesIffOpen(gates, t', o');
    forall k | 0 <= k < |gates| ensures Open(Narrowed(gates, k, t'), o', gates[k].mask) {
      NarrowedCovers(gates, k, t, t');
      assert Open(Narrowed(gates, k, t), o, gates[k].mask);
    }
  }

  /** Larger masks never lose a leaf: each is reached at least as often. */
  lemma LargerMasksReachMore(node: Node, t: Mask, o: Mask, t': Mask, o': Mask)
    requires Covers(t', t) && Covers(o', o)
    ensures multiset(Reached(node, t, o)) <= multiset(Reached(node, t', o'))
  {
    ReachesWhatPasses(node, t, o);
    ReachesWhatPasses(node, t', o');
    PassingCovers(Places(node), t, o, t', o');
  }

  lemma {:induction false} PassingCovers(places: seq<Place>, t: Mask, o: Mask, t': Mask, o': Mask)
    requires Covers(t', t) && Covers(o', o)
    ensures multiset(Passing(places, t, o)) <= multiset(Passing(places, t', o'))
  {
    if places != [] {
      PassingCovers(places[..|places| - 1], t, o, t', o');
      if Passes(places[|places| - 1].gates, t, o) { PassesCovers(places[|places| - 1].gates, t, o, t', o'); }
    }
  }

  /** With every override bit set a gate closes only when the views above have narrowed the mask to nothing:
      such a visitor still misses what is gated below a view that it entered by override alone. */
  lemma OverrideAllPasses(gates: seq<Gate>, t: Mask)
    ensures Passes(gates, t, MASK_ALL) <==> forall k | 0 <= k < |gates| :: SomeBitLeft(gates, k, t)
  {
    assert forall b: Bit :: b in MASK_ALL;
    forall k | 0 <= k < |gates| ensures Bits(gates, k, t, MASK_ALL) <==> SomeBitLeft(gates, k, t) {}
  }

  /** The views among the first k gates leave some bit of the mask. */
  predicate SomeBitLeft(gates: seq<Gate>, k: nat, traversal: Mask)
    requires k <= |gates|
  {
    exists b | b in traversal :: forall j | 0 <= j < k && gates[j].narrows :: b in gates[j].mask
  }

  // ----- one kind of gate at a time -----

  /** What stands below a layer is reached exactly when some traversal bit is in the layer's mask or overrides it. */
  lemma LayerGates(mask: Mask, child: Node, t: Mask, o: Mask)
    ensures Reached(Layer(mask, child), t, o)
         == if exists b | b in t :: b in mask || b in o then Reached(child, t, o) else []
  {
    OneGate(mask, t, o);
  }

  /** A group has no gate, and its children are visited in order. */
  lemma {:induction false} GroupJoins(a: seq<Node>, b: seq<Node>, t: Mask, o: Mask)
    ensures Reached(Group(a + b), t, o) == Reached(Group(a), t, o) + Reached(Group(b), t, o)
    decreases |b|
  {
    if b == [] {
      assert a + b == a;
      assert ReachedInGroup([], t, o) == [];
    } else {
      var all, n := a + b, |b| - 1;
      assert all[..|all| - 1] == a + b[..n] && all[|all| - 1] == b[n];
      GroupJoins(a, b[..n], t, o);
      assert ReachedInGroup(all, t, o) == ReachedInGroup(a + b[..n], t, o) + Reached(b[n], t, o);
      assert ReachedInGroup(b, t, o) == ReachedInGroup(b[..n], t, o) + Reached(b[n], t, o);
    }
  }

  /** The children of a switch are gated each by its own mask. */
  lemma SwitchGates(choices: seq<Child>, last: Child, t: Mask, o: Mask)
    ensures Reached(Switch([]), t, o) == []
    ensures Reached(Switch(choices + [last]), t, o) == Reached(Switch(choices), t, o)
      + if exists b | b in t :: b in last.mask || b in o then Reached(last.node, t, o) else []
  {
    var all := choices + [last];
    assert all[..|all| - 1] == choices && all[|all| - 1] == last;
    assert ReachedInSwitch(all, t, o) == ReachedInSwitch(choices, t, o) + ReachedThrough(last, t, o);
    assert ReachedInSwitch([], t, o) == [];
    OneGate(last.mask, t, o);
  }

  /** A view is gated like a layer, and only the traversal bits in its mask go on below it. */
  lemma ViewGates(mask: Mask, children: seq<Node>, t: Mask, o: Mask, below: Mask)
    requires forall b: Bit :: b in below <==> b in t && b in mask
    ensures Reached(View(mask, children), t, o)
         == if exists b | b in t :: b in mask || b in o then Reached(Group(children), below, o) else []
  {
    OneGate(mask, t, o);
    assert t * mask == below;
  }

  /** A leaf in a view in a view: both gates, the second with the bits that the first leaves. */
  lemma NestedViews(outer: Mask, inner: Mask, leaf: nat, t: Mask, o: Mask)
    ensures Reached(View(outer, [View(inner, [Leaf(leaf)])]), t, o) == [leaf]
       <==> (exists b | b in t :: b in outer || b in o) && exists b | b in t :: b in outer && (b in inner || b in o)
  {
    OneInGroup(View(inner, [Leaf(leaf)]), t * outer, o);
    OneInGroup(Leaf(leaf), t * outer * inner, o);
    OneGate(outer, t, o);
    OneGate(inner, t * outer, o);
  }

  /** A view with bit 0, visited with bit 1 and every override bit: the view is entered, and what stands in it is
      reached, but not through a layer with every bit set. */
  lemma LayerBelowOverriddenView(leaf: nat)
    ensures var gated := Layer(MASK_ALL, Leaf(leaf));
      && Reached(View({0}, [Leaf(leaf)]), {1}, MASK_ALL) == [leaf]
      && Reached(View({0}, [gated]), {1}, MASK_ALL) == []
  {
    var gated := Layer(MASK_ALL, Leaf(leaf));
    var zero: Mask, one: Mask := {0}, {1};
    assert one * zero == MASK_OFF;
    assert 1 in one * (MASK_ALL + zero);
    OneInGroup(Leaf(leaf), MASK_OFF, MASK_ALL);
    OneInGroup(gated, MASK_OFF, MASK_ALL);
  }

  lemma OneInGroup(node: Node, t: Mask, o: Mask)
    ensures ReachedInGroup([node], t, o) == Reached(node, t, o)
  {
    assert [node][..0] == [];
    assert ReachedInGroup([], t, o) == [];
  }
}

/** Ordering of objects and containers by the sign of a comparison. */
module Compare {

  /** A comparison yields a negative number, zero or a positive number. */
  type Order<!T> = (T, T) -> int

  function Sign(x: int): int { if x < 0 then -1 else if x > 0 then 1 else 0 }

  ghost predicate Reflexive<T(!new)>(compare: Order<T>) { forall a :: compare(a, a) == 0 }

  ghost predicate Antisymmetric<T(!new)>(compare: Order<T>) {
    forall a, b :: Sign(compare(a, b)) == -Sign(compare(b, a))
  }

  ghost predicate Transitive<T(!new)>(compare: Order<T>) {
    forall a, b, c :: compare(a, b) <= 0 && compare(b, c) <= 0 ==> compare(a, c) <= 0
  }

  ghost predicate TotalPreorder<T(!new)>(compare: Order<T>) {
    Reflexive(compare) && Antisymmetric(compare) && Transitive(compare)
  }

  ghost predicate StrictWeakOrder<T(!new)>(less: (T, T) -> bool) {
    && (forall a :: !less(a, a))
    && (forall a, b, c :: less(a, b) && less(b, c) ==> less(a, c))
    && (forall a, b, c :: less(a, c) ==> less(a, b) || less(b, c))
  }

  // ----- single values and pointers -----

  /** `compare_value`, from the type's `operator<`. */
  function CompareValue<T>(less: (T, T) -> bool, lhs: T, rhs: T): int {
    if less(lhs, rhs) then -1 else if less(rhs, lhs) then 1 else 0
  }

  /** An `operator<` that is a strict weak order gives a total preorder. */
  lemma ValueOrder<T(!new)>(less: (T, T) -> bool)
    requires StrictWeakOrder(less)
    ensures TotalPreorder((a: T, b: T) => CompareValue(less, a, b))
    ensures forall a, b :: CompareValue(less, a, b) < 0 <==> less(a, b)
  {
    var compare := (a: T, b: T) => CompareValue(less, a, b);
    forall a, b, c | compare(a, b) <= 0 && compare(b, c) <= 0 ensures compare(a, c) <= 0 {
      assert less(c, a) ==> less(c, b) || less(b, a);
    }
  }

  /** A pointer to an object, known by its address. */
  datatype Ptr = Null | At(address: nat)

  /** `compare_pointer`; `compare` compares the objects at two addresses. */
  function ComparePointer(compare: Order<nat>, lhs: Ptr, rhs: Ptr): int {
    if lhs == rhs then 0
    else if lhs.At? then (if rhs.At? then compare(lhs.address, rhs.address) else 1)
    else (if rhs.At? then -1 else 0)
  }

  function Pointers(compare: Order<nat>): Order<Ptr> { (a, b) => ComparePointer(compare, a, b) }

  /** Null comes first; that equal pointers are not looked into makes no difference. */
  lemma PointerOrder(compare: Order<nat>)
    requires TotalPreorder(compare)
    ensures TotalPreorder(Pointers(compare))
    ensures forall a, b :: Pointers(compare)(Ptr.At(a), Ptr.At(b)) == compare(a, b)
    ensures forall a :: Pointers(compare)(Null, Ptr.At(a)) < 0
  {
    var ptrs := Pointers(compare);
    forall a, b ensures Sign(ptrs(a, b)) == -Sign(ptrs(b, a)) {
      if a.At? && b.At? { assert Sign(compare(a.address, b.address)) == -Sign(compare(b.address, a.address)); }
    }
    forall a, b, c | ptrs(a, b) <= 0 && ptrs(b, c) <= 0 ensures ptrs(a, c) <= 0 {
      if a.At? && b.At? && c.At? && a != c {
        assert compare(a.address, b.address) <= 0 && compare(b.address, c.address) <= 0;
      }
    }
  }

  // ----- sequences of values -----

  /** The comparison of the first elements that differ. */
  function FirstDifference<T>(compare: Order<T>, lhs: seq<T>, rhs: seq<T>): int
    requires |lhs| == |rhs|
  {
    if lhs == [] then 0
    else
      var first := compare(lhs[0], rhs[0]);
      if first != 0 then first else FirstDifference(compare, lhs[1..], rhs[1..])
  }

  /** Shorter containers come first; of containers equally long the first difference decides. */
  function CompareElements<T>(compare: Order<T>, lhs: seq<T>, rhs: seq<T>): int {
    if |lhs| < |rhs| then -1
    else if |lhs| > |rhs| then 1
    else FirstDifference(compare, lhs, rhs)
  }

  function Containers<T>(compare: Order<T>): Order<seq<T>> { (a, b) => CompareElements(compare, a, b) }

  lemma {:induction false} EqualPrefix<T>(compare: Order<T>, lhs: seq<T>, rhs: seq<T>, i: nat)
    requires |lhs| == |rhs| && i <= |lhs| && forall j | 0 <= j < i :: compare(lhs[j], rhs[j]) == 0
    ensures FirstDifference(compare, lhs, rhs) == FirstDifference(compare, lhs[i..], rhs[i..])
  {
    if i > 0 {
      EqualPrefix(compare, lhs[1..], rhs[1..], i - 1);
      assert lhs[1..][i - 1..] == lhs[i..] && rhs[1..][i - 1..] == rhs[i..];
    } else {
      assert lhs[0..] == lhs && rhs[0..] == rhs;
    }
  }

  /** `compare_values` on `size` values. */
  method CompareValues<T>(less: (T, T) -> bool, lhs: seq<T>, rhs: seq<T>, size: nat) returns (result: int)
    requires size <= |lhs| && size <= |rhs|
    ensures result == FirstDifference((a: T, b: T) => CompareValue(less, a, b), lhs[..size], rhs[..size])
  {
    ghost var compare := (a: T, b: T) => CompareValue(less, a, b);
    result := 0;
    for i := 0 to size
      invariant result == 0
      invariant forall j | 0 <= j < i :: compare(lhs[j], rhs[j]) == 0
    {
      result := CompareValue(less, lhs[i], rhs[i]);
      if result != 0 {
        EqualPrefix(compare, lhs[..size], rhs[..size], i);
        break;
      }
    }
    if result == 0 { EqualPrefix(compare, lhs[..size], rhs[..size], size); }
  }

  /** `compare_container`. */
  method CompareContainer<T>(compare: Order<T>, lhs: seq<T>, rhs: seq<T>) returns (result: int)
    ensures result == CompareElements(compare, lhs, rhs)
    ensures |lhs| < |rhs| ==> result < 0
    ensures |lhs| > |rhs| ==> result > 0
  {
    if |lhs| < |rhs| { return -1; }
    if |lhs| > |rhs| { return 1; }
    if |lhs| == 0 { return 0; }
    for i := 0 to |lhs|
      invariant forall j | 0 <= j < i :: compare(lhs[j], rhs[j]) == 0
    {
      result := compare(lhs[i], rhs[i]);
      if result != 0 {
        EqualPrefix(compare, lhs, rhs, i);
        return result;
      }
    }
    EqualPrefix(compare, lhs, rhs, |lhs|);
    return 0;
  }

  /** `compare_pointer_container`. */
  method ComparePointerContainer(compare: Order<nat>, lhs: seq<Ptr>, rhs: seq<Ptr>) returns (result: int)
    ensures result == CompareElements(Pointers(compare), lhs, rhs)
    ensures |lhs| < |rhs| ==> result < 0
    ensures |lhs| > |rhs| ==> result > 0
  {
    if |lhs| < |rhs| { return -1; }
    if |lhs| > |rhs| { return 1; }
    if |lhs| == 0 { return 0; }
    for i := 0 to |lhs|
      invariant forall j | 0 <= j < i :: Pointers(compare)(lhs[j], rhs[j]) == 0
    {
      result := ComparePointer(compare, lhs[i], rhs[i]);
      if result != 0 {
        EqualPrefix(Pointers(compare), lhs, rhs, i);
        return result;
      }
    }
    EqualPrefix(Pointers(compare), lhs, rhs, |lhs|);
    return 0;
  }

  // ----- containers inherit the order of their elements -----

  lemma {:induction false} DifferenceReflexive<T(!new)>(compare: Order<T>, a: seq<T>)
    requires Reflexive(compare)
    ensures FirstDifference(compare, a, a) == 0
  {
    if a != [] { DifferenceReflexive(compare, a[1..]); }
  }

  lemma {:induction false} DifferenceAntisymmetric<T(!new)>(compare: Order<T>, a: seq<T>, b: seq<T>)
    requires Antisymmetric(compare) && |a| == |b|
    ensures Sign(FirstDifference(compare, a, b)) == -Sign(FirstDifference(compare, b, a))
  {
    if a != [] {
      assert Sign(compare(a[0], b[0])) == -Sign(compare(b[0], a[0]));
      DifferenceAntisymmetric(compare, a[1..], b[1..]);
    }
  }

  /** If a <= b <= c and a is equivalent to c, then b is equivalent to both. */
  lemma Squeezed<T(!new)>(compare: Order<T>, a: T, b: T, c: T)
    requires TotalPreorder(compare) && compare(a, b) <= 0 && compare(b, c) <= 0
    ensures compare(a, c) <= 0 && (compare(a, c) == 0 ==> compare(a, b) == 0 && compare(b, c) == 0)
  {
    assert Sign(compare(a, b)) == -Sign(compare(b, a));
    assert Sign(compare(b, c)) == -Sign(compare(c, b));
    assert Sign(compare(a, c)) == -Sign(compare(c, a));
    if compare(a, c) == 0 {
      assert compare(c, a) <= 0;
      assert compare(c, b) <= 0;
      assert compare(b, a) <= 0;
    }
  }

  lemma {:induction false} DifferenceTransitive<T(!new)>(compare: Order<T>, a: seq<T>, b: seq<T>, c: seq<T>)
    requires TotalPreorder(compare) && |a| == |b| == |c|
    requires FirstDifference(compare, a, b) <= 0 && FirstDifference(compare, b, c) <= 0
    ensures FirstDifference(compare, a, c) <= 0
  {
    if a != [] {
      Squeezed(compare, a[0], b[0], c[0]);
      if compare(a[0], c[0]) == 0 { DifferenceTransitive(compare, a[1..], b[1..], c[1..]); }
    }
  }

  /** Containers of totally preordered elements are totally preordered. */
  lemma ContainerOrder<T(!new)>(compare: Order<T>)
    requires TotalPreorder(compare)
    ensures TotalPreorder(Containers(compare))
  {
    var order := Containers(compare);
    forall a ensures order(a, a) == 0 { DifferenceReflexive(compare, a); }
    forall a, b ensures Sign(order(a, b)) == -Sign(order(b, a)) {
      if |a| == |b| { DifferenceAntisymmetric(compare, a, b); }
    }
    forall a, b, c | order(a, b) <= 0 && order(b, c) <= 0 ensures order(a, c) <= 0 {
      if |a| == |b| == |c| { DifferenceTransitive(compare, a, b, c); }
    }
  }

  /** Of two containers of the same length that compare different, the first elements that differ decide. */
  lemma {:induction false} FirstDifferenceDecides<T>(compare: Order<T>, a: seq<T>, b: seq<T>) returns (k: nat)
    requires |a| == |b| && CompareElements(compare, a, b) != 0
    ensures k < |a| && (forall i | 0 <= i < k :: compare(a[i], b[i]) == 0)
    ensures CompareElements(compare, a, b) == compare(a[k], b[k])
    decreases |a|
  {
    if compare(a[0], b[0]) != 0 {
      k := 0;
    } else {
      var n := FirstDifferenceDecides(compare, a[1..], b[1..]);
      k := n + 1;
      forall i | 0 <= i < k ensures compare(a[i], b[i]) == 0 {
        if i > 0 { assert compare(a[1..][i - 1], b[1..][i - 1]) == 0; }
      }
    }
  }

  /** The shorter of two containers comes first, whatever it holds. */
  lemma ShorterComesFirst<T>(compare: Order<T>, a: seq<T>, b: seq<T>)
    requires |a| < |b|
    ensures CompareElements(compare, a, b) < 0 < CompareElements(compare, b, a)
  {
  }

  /** Containers compare equal exactly when they have the same length and all their elements compare equal. */
  lemma {:induction false} EqualContainers<T>(compare: Order<T>, a: seq<T>, b: seq<T>)
    ensures CompareElements(compare, a, b) == 0
       <==> |a| == |b| && forall i | 0 <= i < |a| :: compare(a[i], b[i]) == 0
    decreases |a|
  {
    if |a| == |b| && a != [] {
      EqualContainers(compare, a[1..], b[1..]);
      if compare(a[0], b[0]) == 0 && forall i | 0 <= i < |a[1..]| :: compare(a[1..][i], b[1..][i]) == 0 {
        forall i | 0 <= i < |a| ensures compare(a[i], b[i]) == 0 {
          if i > 0 { assert compare(a[1..][i - 1], b[1..][i - 1]) == 0; }
        }
      }
    }
  }

  /** `DereferenceLess`. */
  function DereferenceLess<T>(compare: Order<T>): (T, T) -> bool { (lhs, rhs) => compare(lhs, rhs) < 0 }

  /** Over a comparison made from `operator<`, `DereferenceLess` is that operator again. */
  lemma DereferenceLessIsLess<T(!new)>(less: (T, T) -> bool, a: T, b: T)
    requires StrictWeakOrder(less)
    ensures DereferenceLess((x: T, y: T) => CompareValue(less, x, y))(a, b) <==> less(a, b)
  {
  }

  /** Under a total preorder `DereferenceLess` is a strict weak order, as ordered sets and maps demand. */
  lemma DereferenceLessOrder<T(!new)>(compare: Order<T>)
    requires TotalPreorder(compare)
    ensures StrictWeakOrder(DereferenceLess(compare))
  {
    var less := DereferenceLess(compare);
    forall a, b, c | less(a, b) && less(b, c) ensures less(a, c) {
      Squeezed(compare, a, b, c);
    }
    forall a, b, c | !less(a, b) && !less(b, c) ensures !less(a, c) {
      assert Sign(compare(a, b)) == -Sign(compare(b, a));
      assert Sign(compare(b, c)) == -Sign(compare(c, b));
      assert Sign(compare(a, c)) == -Sign(compare(c, a));
      Squeezed(compare, c, b, a);
    }
  }

  /** Objects that hold containers of pointers to ordered objects can be ordered by `DereferenceLess`. */
  lemma PointerContainerLess(compare: Order<nat>)
    requires TotalPreorder(compare)
    ensures StrictWeakOrder(DereferenceLess(Containers(Pointers(compare))))
  {
    PointerOrder(compare);
    ContainerOrder(Pointers(compare));
    DereferenceLessOrder(Containers(Pointers(compare)));
  }
}

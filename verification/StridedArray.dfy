/** Arrays of one, two or three dimensions as strided views over a buffer of bytes. */
module StridedArray {
  import opened Arithmetic

  newtype byte = x: int | 0 <= x < 256

  const UINT32 := 0x1_0000_0000

  // ----- slots in memory -----

  /** Where the elements lie: the first at `start`, each `size` bytes long, `stride` bytes from one to the next. */
  datatype Layout = Layout(start: nat, stride: nat, size: nat) {
    function Slot(n: nat): nat { start + n * stride }

    /** `count` elements lie inside a buffer of `length` bytes. */
    predicate Fits(count: nat, length: nat) { count > 0 ==> Slot(count - 1) + size <= length }
  }

  function Value(l: Layout, memory: seq<byte>, n: nat): (v: seq<byte>)
    requires l.Slot(n) + l.size <= |memory|
    ensures |v| == l.size
  {
    memory[l.Slot(n)..l.Slot(n) + l.size]
  }

  function Elements(l: Layout, memory: seq<byte>, count: nat): (e: seq<seq<byte>>)
    requires l.Fits(count, |memory|)
    ensures |e| == count
  {
    seq(count, n requires 0 <= n < count => SlotInside(l, n, count, |memory|); Value(l, memory, n))
  }

  function Write(memory: seq<byte>, at: nat, v: seq<byte>): (m: seq<byte>)
    requires at + |v| <= |memory|
    ensures |m| == |memory|
  {
    memory[..at] + v + memory[at + |v|..]
  }

  predicate Apart(a: nat, sizeA: nat, b: nat, sizeB: nat) { a + sizeA <= b || b + sizeB <= a }

  lemma SlotOrder(l: Layout, m: nat, n: nat)
    requires m <= n
    ensures l.Slot(m) <= l.Slot(n) && (m < n ==> l.Slot(m) + l.stride <= l.Slot(n))
  {
    MulMono(m, n, l.stride);
    if m < n {
      MulMono(m + 1, n, l.stride);
      MulAdd(m, 1, l.stride);
    }
  }

  lemma SlotInside(l: Layout, n: nat, count: nat, length: nat)
    requires n < count && l.Fits(count, length)
    ensures l.Slot(n) + l.size <= length
  {
    SlotOrder(l, n, count - 1);
  }

  lemma WriteApart(memory: seq<byte>, at: nat, v: seq<byte>, l: Layout, n: nat)
    requires at + |v| <= |memory| && l.Slot(n) + l.size <= |memory| && Apart(at, |v|, l.Slot(n), l.size)
    ensures Value(l, Write(memory, at, v), n) == Value(l, memory, n)
  {
    var m := Write(memory, at, v);
    assert forall i | l.Slot(n) <= i < l.Slot(n) + l.size :: m[i] == memory[i];
  }

  /** With a stride no smaller than the value, writing one element changes exactly that element. */
  lemma WriteChangesOne(l: Layout, memory: seq<byte>, count: nat, n: nat, v: seq<byte>)
    requires l.Fits(count, |memory|) && n < count && |v| == l.size <= l.stride
    ensures l.Slot(n) + l.size <= |memory|
    ensures Elements(l, Write(memory, l.Slot(n), v), count) == Elements(l, memory, count)[n := v]
  {
    SlotInside(l, n, count, |memory|);
    var after := Write(memory, l.Slot(n), v);
    forall m | 0 <= m < count
      ensures Elements(l, after, count)[m] == if m == n then v else Elements(l, memory, count)[m]
    {
      SlotInside(l, m, count, |memory|);
      if m != n {
        SlotOrder(l, if m < n then m else n, if m < n then n else m);
        WriteApart(memory, l.Slot(n), v, l, m);
      }
    }
  }

  /** Writing an element of one view leaves another view as it is when no byte is shared. */
  lemma WriteLeavesOther(l: Layout, n: nat, v: seq<byte>, other: Layout, count: nat, memory: seq<byte>)
    requires l.Slot(n) + |v| <= |memory| && other.Fits(count, |memory|)
    requires forall m: nat | m < count :: Apart(l.Slot(n), |v|, other.Slot(m), other.size)
    ensures Elements(other, Write(memory, l.Slot(n), v), count) == Elements(other, memory, count)
  {
    forall m | 0 <= m < count
      ensures Elements(other, Write(memory, l.Slot(n), v), count)[m] == Elements(other, memory, count)[m]
    {
      SlotInside(other, m, count, |memory|);
      WriteApart(memory, l.Slot(n), v, other, m);
    }
  }

  /** Two attributes interleaved in one record of `stride` bytes share no byte: every slot of one is apart
      from every slot of the other. */
  lemma InterleavedApart(a: Layout, b: Layout, m: nat, n: nat)
    requires a.stride == b.stride && a.start + a.size <= b.start && b.start + b.size <= a.start + a.stride
    ensures Apart(a.Slot(m), a.size, b.Slot(n), b.size)
  {
    if m <= n {
      SlotOrder(a, m, n);
      assert b.Slot(n) == a.Slot(n) + (b.start - a.start);
    } else {
      SlotOrder(b, n, m);
      SlotOrder(a, n, m);
      assert b.Slot(n) == a.Slot(n) + (b.start - a.start);
    }
  }

  lemma FirstFit(l: Layout, n: nat, count: nat, length: nat)
    requires n <= count && l.Fits(count, length)
    ensures l.Fits(n, length)
  {
    if n > 0 { SlotOrder(l, n - 1, count - 1); }
  }

  /** One element further on. */
  lemma Following(l: Layout, n: nat, last: nat, length: nat)
    requires n < last && l.Fits(last, length)
    ensures l.Slot(n + 1) == l.Slot(n) + l.stride && l.Slot(n) + l.size <= length && l.Fits(n + 1, length)
  {
    MulAdd(n, 1, l.stride);
    SlotInside(l, n, last, length);
  }

  /** The first n elements written one after the other. */
  function WriteAll(l: Layout, memory: seq<byte>, v: seq<byte>, n: nat): (m: seq<byte>)
    requires l.Fits(n, |memory|) && |v| == l.size
    ensures |m| == |memory|
  {
    if n == 0 then memory
    else
      FirstFit(l, n - 1, n, |memory|);
      Write(WriteAll(l, memory, v, n - 1), l.Slot(n - 1), v)
  }

  /** The first n elements replaced by v. */
  function Filled(e: seq<seq<byte>>, v: seq<byte>, n: nat): (f: seq<seq<byte>>)
    requires n <= |e|
    ensures |f| == |e| && forall i | 0 <= i < |e| :: f[i] == if i < n then v else e[i]
  {
    seq(|e|, i requires 0 <= i < |e| => if i < n then v else e[i])
  }

  lemma {:induction false} WriteAllFills(l: Layout, memory: seq<byte>, v: seq<byte>, n: nat, count: nat)
    requires n <= count && l.Fits(n, |memory|) && l.Fits(count, |memory|) && |v| == l.size <= l.stride
    ensures Elements(l, WriteAll(l, memory, v, n), count) == Filled(Elements(l, memory, count), v, n)
  {
    if n > 0 {
      FirstFit(l, n - 1, n, |memory|);
      WriteAllFills(l, memory, v, n - 1, count);
      WriteChangesOne(l, WriteAll(l, memory, v, n - 1), count, n - 1, v);
    }
  }

  /** The first n elements of one view written to another memory, back to back. */
  function CopyAll(l: Layout, memory: seq<byte>, dest: seq<byte>, n: nat): (m: seq<byte>)
    requires l.Fits(n, |memory|) && Packed(l.size).Fits(n, |dest|)
    ensures |m| == |dest|
  {
    if n == 0 then dest
    else
      FirstFit(l, n - 1, n, |memory|);
      FirstFit(Packed(l.size), n - 1, n, |dest|);
      Write(CopyAll(l, memory, dest, n - 1), Packed(l.size).Slot(n - 1), Value(l, memory, n - 1))
  }

  lemma CopyNext(l: Layout, memory: seq<byte>, dest: seq<byte>, n: nat)
    requires l.Fits(n, |memory|) && Packed(l.size).Fits(n, |dest|)
    requires l.Fits(n + 1, |memory|) && Packed(l.size).Fits(n + 1, |dest|)
    ensures CopyAll(l, memory, dest, n + 1)
         == Write(CopyAll(l, memory, dest, n), Packed(l.size).Slot(n), Value(l, memory, n))
  {
  }

  function Packed(size: nat): Layout { Layout(0, size, size) }

  lemma {:induction false} CopyAllCopies(l: Layout, memory: seq<byte>, dest: seq<byte>, n: nat)
    requires l.Fits(n, |memory|) && Packed(l.size).Fits(n, |dest|)
    ensures Elements(Packed(l.size), CopyAll(l, memory, dest, n), n) == Elements(l, memory, n)
  {
    if n > 0 {
      var p, m := Packed(l.size), n - 1;
      FirstFit(l, m, n, |memory|);
      FirstFit(p, m, n, |dest|);
      CopyAllCopies(l, memory, dest, m);
      var before, after := CopyAll(l, memory, dest, m), CopyAll(l, memory, dest, n);
      assert Elements(p, after, n)[m] == Value(p, after, m) == Value(l, memory, m);
      forall i | 0 <= i < m ensures Elements(p, after, n)[i] == Elements(l, memory, n)[i] {
        SlotInside(p, i, n, |dest|);
        SlotOrder(p, i, m);
        WriteApart(before, p.Slot(m), Value(l, memory, m), p, i);
        assert Elements(p, before, m)[i] == Elements(l, memory, m)[i];
      }
    }
  }

  /** Packed memory of `count` elements holds a view of the same count exactly when the stride does not exceed
      the value or there is at most one element. */
  lemma PackedFitsIff(l: Layout, count: nat)
    requires l.start == 0
    ensures l.Fits(count, l.size * count) <==> count <= 1 || l.stride <= l.size
  {
    if count > 1 {
      MulAdd(count - 1, 1, l.size);
      if l.stride > l.size {
        MulMono(l.size + 1, l.stride, count - 1);
        MulAdd(l.size, 1, count - 1);
      } else {
        MulMono(l.stride, l.size, count - 1);
      }
    }
  }

  /** Two values of four bytes, eight bytes apart, in packed memory: the second one lies behind its end. */
  lemma StridedCopyOverruns()
    ensures var copied := Layout(0, 8, 4); !copied.Fits(2, copied.size * 2) && copied.Slot(1) >= copied.size * 2
  {
    PackedFitsIff(Layout(0, 8, 4), 2);
  }

  // ----- indices -----

  function Index(w: nat, h: nat, i: nat, j: nat, k: nat): nat { k * w * h + j * w + i }

  function Coordinates(w: nat, h: nat, n: nat): (c: (nat, nat, nat))
    requires w > 0 && h > 0
  {
    (n % w, n / w % h, n / w / h)
  }

  /** `index` is a bijection from the coordinates of a w * h * d array onto [0, w * h * d): it has `Coordinates`
      as its inverse. */
  lemma IndexThenCoordinates(w: nat, h: nat, d: nat, i: nat, j: nat, k: nat)
    requires i < w && j < h && k < d
    ensures Index(w, h, i, j, k) < w * h * d
    ensures Coordinates(w, h, Index(w, h, i, j, k)) == (i, j, k)
  {
    IndexNested(w, h, i, j, k);
    DivMod(k * h + j, i, w);
    DivMod(k, j, h);
    NestedBound(k, h, j, d);
    NestedBound(k * h + j, w, i, d * h);
    MulAssociates(w, h, d);
    MulAssociates(d, h, w);
  }

  lemma IndexNested(w: nat, h: nat, i: nat, j: nat, k: nat)
    ensures Index(w, h, i, j, k) == (k * h + j) * w + i
  {
    MulAdd(k * h, j, w);
    MulAssociates(k, w, h);
  }

  lemma NestedBound(q: nat, d: nat, r: nat, b: nat)
    requires q < b && r < d
    ensures q * d + r < b * d
  {
    MulMono(q + 1, b, d);
    MulAdd(q, 1, d);
  }

  lemma CoordinatesThenIndex(w: nat, h: nat, d: nat, n: nat)
    requires n < w * h * d
    ensures w > 0 && h > 0
    ensures var (i, j, k) := Coordinates(w, h, n); i < w && j < h && k < d && Index(w, h, i, j, k) == n
  {
    ProductOfThree(w, h, d);
    DivBound(n, d * h, w);
    DivBound(n / w, d, h);
    IndexNested(w, h, n % w, n / w % h, n / w / h);
    Recombined(n, w, h);
  }

  lemma ProductOfThree(w: nat, h: nat, d: nat)
    ensures w * h * d == (d * h) * w
    ensures w * h * d > 0 ==> w > 0 && h > 0
  {
    MulAssociates(w, h, d);
    MulAssociates(h, d, w);
  }

  lemma Recombined(n: nat, w: nat, h: nat)
    requires w > 0 && h > 0
    ensures n % w < w && n / w % h < h && (n / w / h * h + n / w % h) * w + n % w == n
  {
  }

  /** Rows follow one another, and so do the layers of rows: neighbours in x are neighbours in memory. */
  lemma RowMajor(w: nat, h: nat, i: nat, j: nat, k: nat)
    ensures Index(w, h, 0, 0, 0) == 0 && Index(w, h, i + 1, j, k) == Index(w, h, i, j, k) + 1
    ensures Index(w, h, i, j + 1, k) == Index(w, h, i, j, k) + w && Index(w, h, i, j, k + 1) == Index(w, h, i, j, k) + w * h
  {
    MulAdd(j, 1, w);
    MulAdd(k, 1, w * h);
    MulAssociates(k, w, h);
    MulAssociates(k + 1, w, h);
  }

  /** Replacing the element at (i, j, k) is seen at (i, j, k) and nowhere else. */
  lemma UpdateSeenOnce<T>(e: seq<T>, w: nat, h: nat, d: nat, i: nat, j: nat, k: nat, v: T, i': nat, j': nat, k': nat)
    requires |e| == w * h * d && i < w && j < h && k < d && i' < w && j' < h && k' < d
    ensures Index(w, h, i, j, k) < |e| && Index(w, h, i', j', k') < |e|
    ensures e[Index(w, h, i, j, k) := v][Index(w, h, i', j', k')]
         == if (i', j', k') == (i, j, k) then v else e[Index(w, h, i', j', k')]
  {
    IndexThenCoordinates(w, h, d, i, j, k);
    IndexThenCoordinates(w, h, d, i', j', k');
  }

  // ----- arrays -----

  /** The bytes of a value stored from position `at` on. */
  method Store(memory: array<byte>, at: nat, v: seq<byte>)
    requires at + |v| <= memory.Length
    modifies memory
    ensures memory[..] == Write(old(memory[..]), at, v)
  {
    ghost var before := memory[..];
    for i := 0 to |v|
      invariant forall b | 0 <= b < memory.Length :: memory[b] == if at <= b < at + i then v[b - at] else before[b]
    {
      memory[at + i] := v[i];
    }
  }

  /** `stride_iterator`: a position in memory. */
  class StrideIterator {
    var ptr: nat
    const stride: nat

    constructor (p: nat, s: nat)
      ensures ptr == p && stride == s
    {
      ptr := p;
      stride := s;
    }

    method Advance()
      modifies this
      ensures ptr == old(ptr) + stride
    {
      ptr := ptr + stride;
    }
  }

  lemma FitFirst(l: Layout, n: nat, count: nat, length: nat, packed: nat)
    requires n <= count && l.Fits(count, length) && packed == l.size * count
    ensures l.Fits(n, length) && Packed(l.size).Fits(n, packed) && Packed(l.size).Fits(count, packed)
  {
    FirstFit(l, n, count, length);
    PackedFitsIff(Packed(l.size), count);
    FirstFit(Packed(l.size), n, count, packed);
  }

  /** The first n elements have been copied. */
  ghost predicate Copied(l: Layout, src: array<byte>, before: seq<byte>, dest: array<byte>, n: nat)
    reads src, dest
  {
    && l.Fits(n, src.Length) && Packed(l.size).Fits(n, |before|)
    && dest[..] == CopyAll(l, src[..], before, n)
  }

  /** One value, read at one position and stored at another. */
  method CopyValue(src: array<byte>, from: nat, dest: array<byte>, to: nat, l: Layout, ghost before: seq<byte>,
                   ghost n: nat)
    requires dest != src && l.Fits(n + 1, src.Length) && Packed(l.size).Fits(n + 1, dest.Length)
    requires Copied(l, src, before, dest, n) && from == l.Slot(n) && to == Packed(l.size).Slot(n)
    modifies dest
    ensures Copied(l, src, before, dest, n + 1)
  {
    var v := src[from..from + l.size];
    CopyNext(l, src[..], before, n);
    Store(dest, to, v);
  }

  /** The loop of a copy: reads through an iterator up to `end`, which stands after element `last` - 1. */
  method CopyElements(src: array<byte>, it: StrideIterator, end: nat, dest: array<byte>, l: Layout, ghost last: nat)
    requires dest != src && l.size > 0 && it.stride == l.stride
    requires l.Fits(last, src.Length) && Packed(l.size).Fits(last, dest.Length)
    requires it.ptr == l.Slot(0) && end == l.Slot(last)
    modifies dest, it
    ensures Copied(l, src, old(dest[..]), dest, if l.stride == 0 then 0 else last)
  {
    ghost var n, before := 0, dest[..];
    assert Copied(l, src, before, dest, 0) && Packed(l.size).Slot(0) == 0 && (l.stride == 0 ==> end == it.ptr);
    hide Copied, Layout.Slot, Layout.Fits;
    var to := 0;
    while it.ptr != end
      invariant n <= last && it.ptr == l.Slot(n) && to == Packed(l.size).Slot(n) && (l.stride == 0 ==> n == 0)
      invariant Copied(l, src, before, dest, n)
      decreases last - n
    {
      Following(l, n, last, src.Length);
      Following(Packed(l.size), n, last, dest.Length);
      CopyValue(src, it.ptr, dest, to, l, before, n);
      it.Advance();
      to := to + l.size;
      n := n + 1;
    }
    if n < last && l.stride > 0 { SlotOrder(l, n, last); }
  }

  class Array3D {
    const valueSize: nat
    var memory: array?<byte>  // what `_data` points into; null where `_data` is null
    var start: nat
    var stride: nat
    var width: nat
    var height: nat
    var depth: nat
    var modifiedCount: nat

    function Shape(): Layout
      reads this
    {
      Layout(start, stride, valueSize)
    }

    function Count(): nat
      reads this
    {
      width * height * depth
    }

    /** The view lies inside its memory. */
    predicate Inside()
      reads this
    {
      if memory == null then Count() == 0 else Shape().Fits(Count(), memory.Length)
    }

    predicate Valid()
      reads this
    {
      && valueSize > 0 && width < UINT32 && height < UINT32 && depth < UINT32 && modifiedCount < UINT32
      && Inside()
    }

    ghost function Contents(): (e: seq<seq<byte>>)
      requires Valid()
      reads this, memory
      ensures |e| == Count()
    {
      if memory == null then [] else Elements(Shape(), memory[..], Count())
    }

    constructor (size: nat)
      requires size > 0
      ensures Valid() && valueSize == size && memory == null && Contents() == [] && modifiedCount == 0
    {
      valueSize := size;
      memory := null;
      start, stride := 0, 0;
      width, height, depth := 0, 0, 0;
      modifiedCount := 0;
    }

    /** The copy constructor: the elements from `begin` to `end` go to new memory, back to back, and the stride
        is taken over. So a copy of strided data does not fit its own memory. With a stride of zero, where all
        elements are one, nothing is copied. */
    constructor Copy(rhs: Array3D)
      requires rhs.Valid()
      ensures valueSize == rhs.valueSize && stride == rhs.stride && start == 0 && Count() == rhs.Count()
      ensures if Count() == 0 then memory == null else memory != null && fresh(memory) && memory.Length == valueSize * Count()
      ensures Inside() <==> Count() <= 1 || stride <= valueSize
      ensures 0 < Count() < UINT32 && stride > 0 ==>
        Packed(valueSize).Fits(Count(), memory.Length) && Elements(Packed(valueSize), memory[..], Count()) == rhs.Contents()
      ensures Valid() && Count() < UINT32 && stride == valueSize ==> Contents() == rhs.Contents()
    {
      valueSize := rhs.valueSize;
      start, stride := 0, rhs.stride;
      width, height, depth := rhs.width, rhs.height, rhs.depth;
      memory := null;
      modifiedCount := 0;
      new;
      PackedFitsIff(Shape(), Count());
      var count := width * height * depth;
      if count == 0 { return; }
      var dest := rhs.PackedCopy(count);
      memory := dest;
      Dirty();
    }

    /** New memory for `count` elements, the count before it wraps, with those from `begin` to `end` in it. */
    method PackedCopy(count: nat) returns (dest: array<byte>)
      requires Valid() && count == Count() > 0
      ensures fresh(dest) && dest.Length == valueSize * count
      ensures Packed(valueSize).Fits(count, dest.Length)
      ensures count < UINT32 && stride > 0 ==> Elements(Packed(valueSize), dest[..], count) == Contents()
    {
      hide CopyAll, Elements, Layout.Slot, Layout.Fits;
      dest := new byte[valueSize * count];
      var l := Shape();
      ghost var last, before := count % UINT32, dest[..];
      var it := Begin();
      var end := End();
      FitFirst(l, last, count, memory.Length, dest.Length);
      CopyElements(memory, it, end.ptr, dest, l, last);
      if count < UINT32 { CopyAllCopies(l, memory[..], before, count); }
    }

    /** `assign` over storage: a view of bytes that something else owns. */
    method Assign(storage: array?<byte>, offset: nat, newStride: nat, w: nat, h: nat, d: nat)
      requires Valid() && w < UINT32 && h < UINT32 && d < UINT32
      requires storage != null ==> Layout(offset, newStride, valueSize).Fits(w * h * d, storage.Length)
      modifies this
      ensures Valid() && memory == storage && stride == newStride
      ensures storage != null ==>
                Count() == w * h * d && Contents() == Elements(Layout(offset, newStride, valueSize), storage[..], w * h * d)
      ensures storage == null ==> Contents() == []
      ensures modifiedCount == (old(modifiedCount) + 1) % UINT32
    {
      memory := storage;
      stride := newStride;
      if storage != null {
        start := offset;
        width, height, depth := w, h, d;
      } else {
        width, height, depth := 0, 0, 0;
      }
      Dirty();
    }

    /** `set` by element number. */
    method Set(n: nat, v: seq<byte>)
      requires Valid() && valueSize <= stride && n < Count() && |v| == valueSize
      modifies memory
      ensures Valid() && Contents() == old(Contents())[n := v]
      ensures memory[..] == Write(old(memory[..]), Shape().Slot(n), v)
    {
      SlotInside(Shape(), n, Count(), memory.Length);
      WriteChangesOne(Shape(), memory[..], Count(), n, v);
      Store(memory, start + n * stride, v);
    }

    /** `set` by coordinates. */
    method SetAt(i: nat, j: nat, k: nat, v: seq<byte>)
      requires Valid() && valueSize <= stride && i < width && j < height && k < depth && |v| == valueSize
      modifies memory
      ensures Valid() && Index(width, height, i, j, k) < Count()
      ensures Contents() == old(Contents())[Index(width, height, i, j, k) := v]
    {
      IndexThenCoordinates(width, height, depth, i, j, k);
      Set(k * width * height + j * width + i, v);
    }

    /** `begin`. */
    method Begin() returns (it: StrideIterator)
      ensures fresh(it) && it.ptr == Shape().Slot(0) && it.stride == stride
    {
      it := new StrideIterator(start, stride);
    }

    /** `end`: the element count is a product of 32-bit numbers, and wraps. */
    method End() returns (it: StrideIterator)
      ensures fresh(it) && it.ptr == Shape().Slot(Count() % UINT32) && it.stride == stride
    {
      it := new StrideIterator(start + (width * height * depth % UINT32) * stride, stride);
    }

    /** Assigns a value through the iterator to every element from `begin` to `end`. */
    method Fill(v: seq<byte>)
      requires Valid() && valueSize <= stride && |v| == valueSize && memory != null
      modifies memory
      ensures Valid() && Contents() == Filled(old(Contents()), v, Count() % UINT32)
    {
      var end := End();
      ghost var last := Count() % UINT32;
      FirstFit(Shape(), last, Count(), memory.Length);
      WriteAllFills(Shape(), memory[..], v, last, Count());
      FillTo(end.ptr, v, last);
    }

    /** The loop: assigns through an iterator from `begin` up to `end`, which stands after element `last` - 1. */
    method FillTo(end: nat, v: seq<byte>, ghost last: nat)
      requires memory != null && stride >= valueSize > 0 && |v| == valueSize
      requires Shape().Fits(last, memory.Length) && end == Shape().Slot(last)
      modifies memory
      ensures memory[..] == WriteAll(Shape(), old(memory[..]), v, last)
    {
      ghost var l, n, before := Shape(), 0, memory[..];
      var it := Begin();
      while it.ptr != end
        invariant n <= last && it.ptr == l.Slot(n) && l.Fits(n, |before|)
        invariant memory[..] == WriteAll(l, before, v, n)
        decreases last - n
        modifies memory, it
      {
        Following(l, n, last, memory.Length);
        Store(memory, it.ptr, v);
        it.Advance();
        n := n + 1;
      }
      if n < last { SlotOrder(l, n, last); }
    }

    method Dirty()
      modifies this`modifiedCount
      ensures modifiedCount == (old(modifiedCount) + 1) % UINT32
    {
      modifiedCount := (modifiedCount + 1) % UINT32;
    }

    /** `getModifiedCount`; `seen` is the caller's count, brought up to date. */
    method GetModifiedCount(seen: nat) returns (changed: bool, seen': nat)
      ensures changed == (modifiedCount != seen) && seen' == modifiedCount
    {
      if modifiedCount != seen { return true, modifiedCount; }
      return false, seen;
    }
  }

  /** Iteration from `begin` to `end` covers the whole array exactly when the element count fits 32 bits. */
  lemma FillCoversIff(e: seq<seq<byte>>, v: seq<byte>, w: seq<byte>)
    requires |v| == |w| && v != w && forall i | 0 <= i < |e| :: e[i] == w
    ensures (forall i | 0 <= i < |e| :: Filled(e, v, |e| % UINT32)[i] == v) <==> |e| < UINT32
  {
    if |e| >= UINT32 { assert Filled(e, v, |e| % UINT32)[|e| - 1] == w; }
  }

  /** At 2^32 elements the end is the beginning, and the loop assigns nothing. */
  lemma EmptyLoop(l: Layout, e: seq<seq<byte>>, v: seq<byte>)
    requires |e| == 2048 * 2048 * 1024
    ensures l.Slot(|e| % UINT32) == l.Slot(0) && Filled(e, v, |e| % UINT32) == e
  {
  }

  /** The modified count after `dirty` has been called n times. */
  function DirtyTimes(count: nat, n: nat): nat {
    if n == 0 then count else (DirtyTimes(count, n - 1) + 1) % UINT32
  }

  lemma NextModulo(a: nat)
    ensures (a % UINT32 + 1) % UINT32 == (a + 1) % UINT32
  {
  }

  lemma {:induction false} DirtyTimesWraps(count: nat, n: nat)
    requires count < UINT32
    ensures DirtyTimes(count, n) == (count + n) % UINT32
  {
    if n > 0 {
      DirtyTimesWraps(count, n - 1);
      NextModulo(count + (n - 1));
    }
  }

  /** After n modifications `getModifiedCount` reports a change exactly when n is no multiple of 2^32. */
  lemma ChangeReportedIff(count: nat, n: nat)
    requires count < UINT32
    ensures DirtyTimes(count, n) != count <==> n % UINT32 != 0
  {
    DirtyTimesWraps(count, n);
    DivMod(n / UINT32, count, UINT32);
    if (count + n) % UINT32 == count { DivMod((count + n) / UINT32, 0, UINT32); }
  }
}

/** `Array::read` into an array that may already hold data, of its own or as a view of other storage. */
module ArrayReading {
  import opened StridedArray

  /** What the stream holds after the size: other data that is to be viewed, the values, or neither. */
  datatype Source = View(bytes: array?<byte>, offset: nat, count: nat) | Values(values: seq<seq<byte>>) | Neither

  predicate AllOfSize(values: seq<seq<byte>>, size: nat) { forall i | 0 <= i < |values| :: |values[i]| == size }

  /** Values stored back to back from `start` on. */
  method StoreAll(memory: array<byte>, start: nat, size: nat, values: seq<seq<byte>>)
    requires AllOfSize(values, size) && Layout(start, size, size).Fits(|values|, memory.Length)
    modifies memory
    ensures Elements(Layout(start, size, size), memory[..], |values|) == values
  {
    ghost var l, count := Layout(start, size, size), |values|;
    for i := 0 to |values|
      invariant forall k | 0 <= k < i :: Elements(l, memory[..], count)[k] == values[k]
    {
      SlotInside(l, i, count, memory.Length);
      WriteChangesOne(l, memory[..], count, i, values[i]);
      Store(memory, start + i * size, values[i]);
    }
  }

  class Array {
    const valueSize: nat
    var memory: array?<byte>  // what `_data` points into
    var start: nat
    var stride: nat
    var size: nat
    var storage: bool         // `_storage` is set: the array is a view of other data
    var owned: bool           // the memory was allocated for this array
    var modifiedCount: nat

    function Shape(): Layout
      reads this
    {
      Layout(start, stride, valueSize)
    }

    predicate Valid()
      reads this
    {
      && valueSize > 0 && size < UINT32 && modifiedCount < UINT32
      && (if memory == null then size == 0 else Shape().Fits(size, memory.Length))
    }

    /** The array deletes its memory exactly if it was allocated for it. */
    predicate Sound()
      reads this
    {
      memory != null ==> (owned <==> !storage)
    }

    ghost function Contents(): (e: seq<seq<byte>>)
      requires Valid()
      reads this, memory
      ensures |e| == size
    {
      if memory == null then [] else Elements(Shape(), memory[..], size)
    }

    constructor (valueSize: nat)
      requires valueSize > 0
      ensures Valid() && Sound() && this.valueSize == valueSize && memory == null && Contents() == []
    {
      this.valueSize := valueSize;
      memory, start, stride, size := null, 0, 0, 0;
      storage, owned := false, false;
      modifiedCount := 0;
    }

    method Allocate(count: nat)
      requires valueSize > 0
      modifies this`memory, this`start, this`owned
      ensures start == 0 && (memory == null <==> count == 0)
      ensures memory != null ==> fresh(memory) && owned && memory.Length == count * valueSize
    {
      start := 0;
      memory := null;
      if count > 0 {
        memory := new byte[count * valueSize];
        owned := true;
      }
    }

    /** `_delete`: gives back the memory unless the array is a view; goes wrong on memory of other data. */
    method Delete() returns (ok: bool)
      ensures ok <==> memory == null || storage || owned
    {
      ok := storage || memory == null || owned;
    }

    method Clear() returns (ok: bool)
      modifies this`size, this`memory, this`storage
      ensures size == 0 && memory == null && !storage
      ensures ok <==> old(memory == null || storage || owned)
    {
      ok := Delete();
      size := 0;
      memory := null;
      storage := false;
    }

    method Assign(bytes: array?<byte>, offset: nat, newStride: nat, count: nat) returns (ok: bool)
      requires valueSize > 0 && modifiedCount < UINT32 && Sound() && count < UINT32
      requires bytes != null ==> Layout(offset, newStride, valueSize).Fits(count, bytes.Length)
      modifies this
      ensures storage && start == offset && stride == newStride
      ensures ok && Valid() && Sound() && memory == bytes && modifiedCount == (old(modifiedCount) + 1) % UINT32
      ensures Contents() == if bytes == null then [] else Elements(Layout(offset, newStride, valueSize), bytes[..], count)
    {
      ok := Delete();
      storage, owned := true, false;
      memory, start, stride, size := bytes, offset, newStride, if bytes == null then 0 else count;
      modifiedCount := (modifiedCount + 1) % UINT32;
    }

    method ReadValues(originalTotalSize: nat, values: seq<seq<byte>>) returns (ok: bool)
      requires valueSize > 0 && Sound() && modifiedCount < UINT32 && originalTotalSize == size
      requires |values| < UINT32 && AllOfSize(values, valueSize)
      requires if memory == null then size == 0
        else size == |values| ==> Layout(start, valueSize, valueSize).Fits(size, memory.Length)
      modifies this, memory
      ensures Valid() && modifiedCount == (old(modifiedCount) + 1) % UINT32
      ensures ok && Sound() <==> old(memory == null || !storage)
      ensures stride == valueSize && (memory == null ==> values == [])
      ensures memory == null || memory == old(memory) || fresh(memory)
      ensures old(memory) != null && old(size) == |values| ==> memory == old(memory) && start == old(start)
      ensures memory != null ==> (
        && Layout(start, valueSize, valueSize).Fits(|values|, memory.Length)
        && Elements(Layout(start, valueSize, valueSize), memory[..], |values|) == values)
      ensures size == if old(memory) == null || old(size) == |values| then |values| else 0
    {
      ok := true;
      stride, size, storage := valueSize, |values|, false;
      var newTotalSize := size;
      if memory != null {
        if originalTotalSize != newTotalSize {
          ok := Clear();
          Allocate(newTotalSize);
        }
      } else {
        Allocate(newTotalSize);
      }
      if memory != null { StoreAll(memory, start, valueSize, values); }
      modifiedCount := (modifiedCount + 1) % UINT32;
    }

    /** Reads a view, or values into memory. The stored count is reset to zero where data of another size had to
        be replaced, so exactly then, unless nothing is read, the array comes out empty. Where the array was a
        view, its storage is let go of before the memory is kept or deleted as if it were the array's own. */
    method Read(newStride: nat, source: Source) returns (ok: bool)
      requires Valid() && Sound()
      requires source.View? ==> source.count < UINT32
      requires source.View? && source.bytes != null ==>
        Layout(source.offset, newStride, valueSize).Fits(source.count, source.bytes.Length)
      requires source.Values? ==> |source.values| < UINT32 && AllOfSize(source.values, valueSize)
      requires source.Values? && memory != null && size == |source.values| ==>
        Layout(start, valueSize, valueSize).Fits(size, memory.Length)
      modifies this, memory
      ensures ok && Sound() <==> !source.Values? || old(memory == null || !storage)
      ensures modifiedCount == if source.Neither? then old(modifiedCount) else (old(modifiedCount) + 1) % UINT32
      ensures source.View? ==> Valid() && memory == source.bytes && storage && start == source.offset && stride == newStride
      ensures source.View? && memory != null ==> (
        && memory[..] == old(source.bytes[..])
        && Contents() == Elements(Layout(source.offset, newStride, valueSize), memory[..], source.count))
      ensures source.Values? ==> Valid() && (memory == null || memory == old(memory) || fresh(memory))
      ensures source.Values? && old(memory) != null && old(size) == |source.values| ==>
        memory == old(memory) && start == old(start)
      ensures source.Values? ==> if memory == null then source.values == [] else (
        && Layout(start, valueSize, valueSize).Fits(|source.values|, memory.Length)
        && Elements(Layout(start, valueSize, valueSize), memory[..], |source.values|) == source.values)
      ensures source.Values? ==>
        (Contents() == source.values <==> old(memory) == null || old(size) == |source.values| || source.values == [])
      ensures source.Values? ==> Contents() == source.values || Contents() == []
      ensures source.Neither? ==> memory == old(memory) && size == old(size) && stride == newStride
    {
      var originalTotalSize := size;
      stride := newStride;
      match source
      case View(bytes, offset, count) =>
        ok := Assign(bytes, offset, stride, count);
      case Values(values) =>
        ok := ReadValues(originalTotalSize, values);
      case Neither =>
        ok := true;
    }
  }

  /** Reading two values into an array of one: they are in memory, and the array has no elements. */
  method ReadIntoOther(values: seq<seq<byte>>) returns (a: Array)
    requires |values| == 2 && AllOfSize(values, 4)
    ensures fresh(a) && a.Valid() && a.Contents() == [] && a.memory != null
  {
    a := new Array(4);
    var one := a.Read(4, Values([values[0]]));
    assert a.Contents() == [values[0]];
    var two := a.Read(4, Values(values));
  }

  /** Reading as many values into a view as it has elements: they go to the bytes of the storage, which the array
      now takes for its own. */
  method ReadIntoView(bytes: array<byte>, values: seq<seq<byte>>) returns (a: Array, ok: bool)
    requires bytes.Length == 8 && |values| == 2 && AllOfSize(values, 4)
    modifies bytes
    ensures a.Valid() && a.memory == bytes && a.Contents() == values && !(ok && a.Sound())
  {
    a := new Array(4);
    ok := a.Read(4, View(bytes, 0, 2));
    ok := a.Read(4, Values(values));
  }
}

/** The bump allocator for temporary memory: a chain of blocks, each with a pointer that only moves up. */
module ScratchMemory {

  datatype Block = Block(base: nat, size: nat, ptr: nat)

  datatype Ptr = Null | At(addr: nat)

  const ALIGNMENT := 8  // sizeof(uint8_t*)

  /** The next pointer-aligned address. */
  function Align(p: nat): (r: nat)
    ensures p <= r < p + ALIGNMENT && r % ALIGNMENT == 0
    ensures p % ALIGNMENT == 0 ==> r == p
  {
    ((p + ALIGNMENT - 1) / ALIGNMENT) * ALIGNMENT
  }

  predicate Fits(b: Block, bytes: nat) {
    b.ptr + bytes <= b.base + b.size
  }

  function Max(a: nat, b: nat): nat { if a < b then b else a }

  function Bumped(b: Block, bytes: nat): Block { b.(ptr := Align(b.ptr + bytes)) }

  /** The chain after a request for `bytes` bytes, and what the request returns. `address` is what
      `new uint8_t[]` yields if a block has to be added. */
  function Alloc(bs: seq<Block>, bytes: nat, address: nat): (r: (seq<Block>, Ptr))
    requires bs != []
    ensures |r.0| >= |bs|
  {
    if bytes == 0 then (bs, Null)
    else if Fits(bs[0], bytes) then ([Bumped(bs[0], bytes)] + bs[1..], At(bs[0].ptr))
    else if |bs| == 1 then (bs + [Bumped(Block(address, Max(bs[0].size, bytes), address), bytes)], At(address))
    else var r := Alloc(bs[1..], bytes, address); ([bs[0]] + r.0, r.1)
  }

  lemma AllocHere(b: Block, rest: seq<Block>, bytes: nat, address: nat)
    requires bytes > 0 && Fits(b, bytes)
    ensures Alloc([b] + rest, bytes, address) == ([Bumped(b, bytes)] + rest, At(b.ptr))
  {
    assert ([b] + rest)[1..] == rest;
  }

  /** A block that is full passes the request on, to a new block if it is the last. */
  lemma AllocDown(b: Block, rest: seq<Block>, mid: seq<Block>, bytes: nat, address: nat)
    requires bytes > 0 && !Fits(b, bytes) && mid != []
    requires mid == if rest == [] then [Block(address, Max(b.size, bytes), address)] else rest
    ensures Alloc([b] + rest, bytes, address) == ([b] + Alloc(mid, bytes, address).0, Alloc(mid, bytes, address).1)
  {
    assert ([b] + rest)[1..] == rest;
    if rest == [] {
      assert [b] + rest == [b];
      assert Alloc(mid, bytes, address).0 == [Bumped(mid[0], bytes)];
    }
  }

  function Reset(bs: seq<Block>): (r: seq<Block>)
    ensures |r| == |bs| && forall i | 0 <= i < |bs| :: r[i] == bs[i].(ptr := bs[i].base)
  {
    seq(|bs|, i requires 0 <= i < |bs| => bs[i].(ptr := bs[i].base))
  }

  /** The blocks are where they were, and their pointers at their beginnings. */
  predicate AllEmpty(before: seq<Block>, after: seq<Block>) {
    |after| == |before| && forall i | 0 <= i < |after| :: after[i] == Block(before[i].base, before[i].size, before[i].base)
  }

  lemma ResetFirst(b: Block, rest: seq<Block>)
    ensures Reset([b] + rest) == [b.(ptr := b.base)] + Reset(rest)
    ensures Reset([]) == []
  {
  }

  lemma ResetEmpties(bs: seq<Block>)
    ensures AllEmpty(bs, Reset(bs))
  {
  }

  class ScratchMemory {
    const buffer: nat
    const size: nat
    var ptr: nat
    var next: ScratchMemory?
    ghost var Repr: set<ScratchMemory>

    ghost predicate Valid()
      reads this, Repr
      decreases Repr
    {
      && this in Repr
      && (next != null ==> next in Repr && next.Repr == Repr - {this} && next.Valid())
      && (next == null ==> Repr == {this})
    }

    ghost function Blocks(): (bs: seq<Block>)
      requires Valid()
      reads this, Repr
      ensures bs != []
      decreases Repr
    {
      [Block(buffer, size, ptr)] + if next == null then [] else next.Blocks()
    }

    constructor (bufferSize: nat, address: nat)
      ensures Valid() && fresh(Repr)
      ensures Blocks() == [Block(address, bufferSize, address)] && Repr == {this}
    {
      size := bufferSize;
      buffer := address;
      ptr := address;
      next := null;
      Repr := {this};
    }

    /** `allocate<T>(num)` with `sizeof(T) == elementSize`; `address` is what `new uint8_t[]` yields if a
        block has to be added. */
    method Allocate(elementSize: nat, num: nat, address: nat) returns (r: Ptr)
      requires Valid() && elementSize > 0
      modifies Repr
      ensures Valid() && fresh(Repr - old(Repr)) && old(Repr) <= Repr
      ensures (Blocks(), r) == Alloc(old(Blocks()), elementSize * num, address)
    {
      if num == 0 { return Null; }
      r := AllocateBytes(elementSize * num, address);
    }

    /** The rest of `allocate`, down the chain. */
    method AllocateBytes(allocateSize: nat, address: nat) returns (r: Ptr)
      requires Valid() && allocateSize > 0
      modifies Repr
      ensures Valid() && fresh(Repr - old(Repr)) && old(Repr) <= Repr
      ensures (Blocks(), r) == Alloc(old(Blocks()), allocateSize, address)
      decreases if Fits(Block(buffer, size, ptr), allocateSize) then 0 else |Repr|, 0
    {
      hide Alloc, Align;
      ghost var rest := if next == null then [] else next.Blocks();
      ghost var block := Block(buffer, size, ptr);
      assert old(Blocks()) == [block] + rest;
      if ptr + allocateSize <= buffer + size {
        AllocHere(block, rest, allocateSize, address);
        r := Take(allocateSize);
        return;
      }
      if next == null { AddNext(Max(size, allocateSize), address); }
      AllocDown(block, rest, next.Blocks(), allocateSize, address);
      r := PassOn(allocateSize, address);
    }

    /** The request goes to the next block. */
    method PassOn(allocateSize: nat, address: nat) returns (r: Ptr)
      requires Valid() && next != null && allocateSize > 0
      modifies Repr
      ensures Valid() && fresh(Repr - old(Repr)) && old(Repr) <= Repr
      ensures var a := Alloc(old(next.Blocks()), allocateSize, address);
        Blocks() == [Block(buffer, size, old(ptr))] + a.0 && r == a.1
      decreases if Fits(Block(next.buffer, next.size, next.ptr), allocateSize) then 0 else |Repr| - 1, 1
    {
      hide Alloc;
      assert |Repr - {this}| == |Repr| - 1;
      r := next.AllocateBytes(allocateSize, address);
      Repr := {this} + next.Repr;
    }

    /** Room at the pointer, which moves on. */
    method Take(allocateSize: nat) returns (r: Ptr)
      requires Valid()
      modifies this`ptr
      ensures Valid() && r == At(old(ptr))
      ensures Blocks() == [Bumped(Block(buffer, size, old(ptr)), allocateSize)] + if next == null then [] else next.Blocks()
      ensures next != null ==> next.Blocks() == old(if next == null then [] else next.Blocks())
    {
      r := At(ptr);
      ptr := Align(ptr + allocateSize);
    }

    method AddNext(nextSize: nat, address: nat)
      requires Valid() && next == null
      modifies this
      ensures Valid() && ptr == old(ptr) && next != null && fresh(next) && Repr == old(Repr) + {next}
      ensures next.Blocks() == [Block(address, nextSize, address)] && next.buffer == next.ptr && next.size == nextSize
    {
      next := new ScratchMemory(nextSize, address);
      Repr := Repr + next.Repr;
      assert next.Blocks()[0] == Block(next.buffer, next.size, next.ptr);
    }

    /** `release`: every block is as large as before, in the same place, and empty. */
    method Release()
      requires Valid()
      modifies Repr
      ensures Valid() && Repr == old(Repr)
      ensures Blocks() == Reset(old(Blocks()))
      ensures AllEmpty(old(Blocks()), Blocks())
      decreases Repr
    {
      hide Reset, AllEmpty;
      ghost var before, rest := Blocks(), if next == null then [] else next.Blocks();
      ptr := buffer;
      if next != null { next.Release(); }
      ResetFirst(Block(buffer, size, old(ptr)), rest);
      ResetEmpties(before);
    }
  }

  // ----- all requests since a release -----

  /** A request for `bytes` bytes; `address` is where a new block would be placed. */
  datatype Request = Request(bytes: nat, address: nat)

  /** The regions returned for a sequence of requests, in order. */
  function Serve(bs: seq<Block>, rs: seq<Request>): (r: (seq<Block>, seq<Ptr>))
    requires bs != []
    ensures |r.0| >= |bs| && |r.1| == |rs|
    decreases |rs|
  {
    if rs == [] then (bs, [])
    else
      var first := Alloc(bs, rs[0].bytes, rs[0].address);
      var rest := Serve(first.0, rs[1..]);
      (rest.0, [first.1] + rest.1)
  }

  predicate SameRoom(a: Block, b: Block) { a.base == b.base && a.size == b.size }

  /** Requests never move or resize a block, and add at most one each, no smaller than the one before it. */
  lemma {:induction false} AllocKeepsRoom(bs: seq<Block>, bytes: nat, address: nat)
    requires bs != []
    ensures var r := Alloc(bs, bytes, address);
      && |bs| <= |r.0| <= |bs| + 1
      && (forall i | 0 <= i < |bs| :: SameRoom(r.0[i], bs[i]))
      && (|r.0| > |bs| ==> r.0[|bs|].base == address && r.0[|bs|].size == Max(bs[|bs| - 1].size, bytes))
  {
    if bytes != 0 && !Fits(bs[0], bytes) && |bs| > 1 { AllocKeepsRoom(bs[1..], bytes, address); }
  }

  lemma {:induction false} ServeKeepsRoom(bs: seq<Block>, rs: seq<Request>)
    requires bs != []
    ensures forall i | 0 <= i < |bs| :: SameRoom(Serve(bs, rs).0[i], bs[i])
    decreases |rs|
  {
    if rs != [] {
      AllocKeepsRoom(bs, rs[0].bytes, rs[0].address);
      ServeKeepsRoom(Alloc(bs, rs[0].bytes, rs[0].address).0, rs[1..]);
    }
  }

  // ----- replaying requests after a release -----

  /** A request served by the present blocks is served the same way in a longer chain. */
  lemma {:induction false} AllocInLongerChain(bs: seq<Block>, more: seq<Block>, bytes: nat, address: nat, address': nat)
    requires bs != [] && |Alloc(bs, bytes, address).0| == |bs|
    ensures var a := Alloc(bs, bytes, address); Alloc(bs + more, bytes, address') == (a.0 + more, a.1)
  {
    assert (bs + more)[1..] == bs[1..] + more;
    if bytes == 0 {
    } else if Fits(bs[0], bytes) {
      assert [Bumped(bs[0], bytes)] + bs[1..] + more == [Bumped(bs[0], bytes)] + (bs[1..] + more);
    } else {
      var down := Alloc(bs[1..], bytes, address).0;
      AllocInLongerChain(bs[1..], more, bytes, address, address');
      assert [bs[0]] + down + more == [bs[0]] + (down + more);
    }
  }

  /** A request that added a block gives the same region when that block, reset, is already there. */
  lemma {:induction false} AllocInAddedBlock(bs: seq<Block>, more: seq<Block>, bytes: nat, address: nat, address': nat)
    requires bs != [] && |Alloc(bs, bytes, address).0| == |bs| + 1
    ensures var a := Alloc(bs, bytes, address);
            Alloc(bs + Reset(a.0[|bs|..]) + more, bytes, address') == (a.0 + more, a.1)
  {
    var a := Alloc(bs, bytes, address);
    var added := Reset(a.0[|bs|..]);
    assert (bs + added + more)[1..] == bs[1..] + added + more;
    if |bs| == 1 {
      var placed := Block(address, Max(bs[0].size, bytes), address);
      assert added == [placed];
      assert bs[1..] + added + more == [placed] + more && ([placed] + more)[1..] == more;
      assert a.0 + more == [bs[0]] + ([Bumped(placed, bytes)] + more);
    } else {
      var down := Alloc(bs[1..], bytes, address).0;
      AllocInAddedBlock(bs[1..], more, bytes, address, address');
      assert a.0[|bs|..] == down[|bs| - 1..];
      assert a.0 + more == [bs[0]] + (down + more);
    }
  }

  /** In the chain as it is after later requests, reset beyond `bs`, a request gives the same region. */
  lemma AllocReplayed(bs: seq<Block>, last: seq<Block>, bytes: nat, address: nat, address': nat)
    requires bs != []
    requires var a := Alloc(bs, bytes, address);
      |a.0| <= |last| && forall i | 0 <= i < |a.0| :: SameRoom(last[i], a.0[i])
    ensures var a := Alloc(bs, bytes, address);
            Alloc(bs + Reset(last[|bs|..]), bytes, address') == (a.0 + Reset(last[|a.0|..]), a.1)
  {
    var first := Alloc(bs, bytes, address).0;
    var more := Reset(last[|first|..]);
    AllocKeepsRoom(bs, bytes, address);
    if |first| == |bs| {
      AllocInLongerChain(bs, more, bytes, address, address');
    } else {
      AllocInAddedBlock(bs, more, bytes, address, address');
      assert bs + Reset(last[|bs|..]) == bs + Reset(first[|bs|..]) + more;
    }
  }

  lemma {:induction false} ServeReplayed(bs: seq<Block>, rs: seq<Request>, rs': seq<Request>)
    requires bs != [] && |rs'| == |rs| && forall i | 0 <= i < |rs| :: rs'[i].bytes == rs[i].bytes
    ensures var a := Serve(bs, rs); Serve(bs + Reset(a.0[|bs|..]), rs') == a
    decreases |rs|
  {
    var a := Serve(bs, rs);
    if rs == [] {
      assert bs + Reset(a.0[|bs|..]) == bs;
    } else {
      var first := Alloc(bs, rs[0].bytes, rs[0].address);
      AllocKeepsRoom(bs, rs[0].bytes, rs[0].address);
      ServeKeepsRoom(first.0, rs[1..]);
      ServeReplayed(first.0, rs[1..], rs'[1..]);
      AllocReplayed(bs, a.0, rs[0].bytes, rs[0].address, rs'[0].address);
    }
  }

  /** After `release` the same requests return the same regions, and no block is added: wherever new
      blocks would be placed, the chain ends up as it was. */
  lemma ReplayAfterRelease(bs: seq<Block>, rs: seq<Request>, rs': seq<Request>)
    requires bs != [] && |rs'| == |rs| && forall i | 0 <= i < |rs| :: rs'[i].bytes == rs[i].bytes
    ensures var a := Serve(Reset(bs), rs); Serve(Reset(a.0), rs') == a
  {
    ServeKeepsRoom(Reset(bs), rs);
    ServeReplayed(Reset(bs), rs, rs');
    ResetTwice(bs, Serve(Reset(bs), rs).0);
  }

  lemma ResetTwice(bs: seq<Block>, longer: seq<Block>)
    requires |bs| <= |longer| && forall i | 0 <= i < |bs| :: SameRoom(longer[i], Reset(bs)[i])
    ensures Reset(longer) == Reset(bs) + Reset(longer[|bs|..])
  {
  }

  // ----- the regions do not overlap -----

  /** Bytes [start, start + bytes). */
  datatype Region = Region(start: nat, bytes: nat)

  predicate Apart(a: Region, b: Region) { a.start + a.bytes <= b.start || b.start + b.bytes <= a.start }

  function Room(b: Block): Region { Region(b.base, b.size) }

  /** The region lies in the used part of the block. */
  predicate UsedIn(b: Block, g: Region) {
    b.base <= g.start && g.start + g.bytes <= b.ptr && g.start + g.bytes <= b.base + b.size
  }

  predicate BlocksApart(bs: seq<Block>) {
    && (forall i | 0 <= i < |bs| :: bs[i].base <= bs[i].ptr)
    && (forall i, j | 0 <= i < j < |bs| :: Apart(Room(bs[i]), Room(bs[j])))
  }

  /** The regions handed out are pairwise apart, and each lies in the used part of a block. */
  ghost predicate WellPlaced(bs: seq<Block>, gs: seq<Region>) {
    && (forall i, j | 0 <= i < j < |gs| :: Apart(gs[i], gs[j]))
    && (forall i | 0 <= i < |gs| :: exists k :: 0 <= k < |bs| && UsedIn(bs[k], gs[i]))
  }

  /** `new uint8_t[]` yields memory that overlaps no block of the chain, pointer-aligned. */
  predicate Placed(bs: seq<Block>, bytes: nat, address: nat)
    requires bs != []
  {
    var a := Alloc(bs, bytes, address).0;
    |a| > |bs| ==>
      && address % ALIGNMENT == 0
      && forall i | 0 <= i < |bs| :: Apart(Room(bs[i]), Region(address, a[|bs|].size))
  }

  predicate AllPlaced(bs: seq<Block>, rs: seq<Request>)
    requires bs != []
    decreases |rs|
  {
    rs == [] || (Placed(bs, rs[0].bytes, rs[0].address)
                 && AllPlaced(Alloc(bs, rs[0].bytes, rs[0].address).0, rs[1..]))
  }

  predicate Aligned(bs: seq<Block>) {
    forall i | 0 <= i < |bs| :: bs[i].base % ALIGNMENT == 0 && bs[i].ptr % ALIGNMENT == 0
  }

  /** A request raises the pointer of exactly one block, an old one with room or a new one, past the region
      it returns. */
  predicate ServedBy(bs: seq<Block>, bytes: nat, a: (seq<Block>, Ptr), b: Block, k: nat) {
    && Fits(b, bytes) && a.1 == At(b.ptr)
    && (k < |bs| ==> b == bs[k] && a.0 == bs[k := Bumped(b, bytes)])
    && (k >= |bs| ==> b.ptr == b.base && a.0 == bs + [Bumped(b, bytes)])
  }

  lemma {:induction false} AllocServes(bs: seq<Block>, bytes: nat, address: nat) returns (k: nat, b: Block)
    requires bs != [] && bytes > 0
    ensures ServedBy(bs, bytes, Alloc(bs, bytes, address), b, k)
    ensures k >= |bs| ==> b.base == address
  {
    if Fits(bs[0], bytes) {
      k, b := 0, bs[0];
    } else if |bs| == 1 {
      k, b := 1, Block(address, Max(bs[0].size, bytes), address);
    } else {
      var j;
      j, b := AllocServes(bs[1..], bytes, address);
      k := j + 1;
      assert bs == [bs[0]] + bs[1..];
    }
  }

  /** One request: the new region is apart from every earlier one. */
  lemma AllocKeepsPlaces(bs: seq<Block>, gs: seq<Region>, bytes: nat, address: nat)
    requires bs != [] && bytes > 0 && BlocksApart(bs) && WellPlaced(bs, gs) && Placed(bs, bytes, address) && Aligned(bs)
    ensures var a := Alloc(bs, bytes, address);
      a.1.At? && a.1.addr % ALIGNMENT == 0
      && BlocksApart(a.0) && Aligned(a.0) && WellPlaced(a.0, gs + [Region(a.1.addr, bytes)])
  {
    hide Alloc;
    var a := Alloc(bs, bytes, address);
    var k, b := AllocServes(bs, bytes, address);
    var g := Region(b.ptr, bytes);
    assert UsedIn(a.0[if k < |bs| then k else |bs|], g);
    forall i | 0 <= i < |gs|
      ensures Apart(gs[i], g) && exists n :: 0 <= n < |a.0| && UsedIn(a.0[n], gs[i])
    {
      var n :| 0 <= n < |bs| && UsedIn(bs[n], gs[i]);
      assert UsedIn(a.0[n], gs[i]);
      if n < k < |bs| { assert Apart(Room(bs[n]), Room(bs[k])); }
      if k < n { assert Apart(Room(bs[k]), Room(bs[n])); }
    }
  }

  /** The regions of the requests that asked for anything. */
  function Regions(rs: seq<Request>, ps: seq<Ptr>): seq<Region>
    requires |ps| == |rs|
  {
    if rs == [] then []
    else (if ps[0].At? then [Region(ps[0].addr, rs[0].bytes)] else []) + Regions(rs[1..], ps[1..])
  }

  lemma {:induction false} ServeKeepsPlaces(bs: seq<Block>, gs: seq<Region>, rs: seq<Request>)
    requires bs != [] && BlocksApart(bs) && WellPlaced(bs, gs) && AllPlaced(bs, rs) && Aligned(bs)
    ensures var s := Serve(bs, rs); BlocksApart(s.0) && WellPlaced(s.0, gs + Regions(rs, s.1))
    decreases |rs|
  {
    var s := Serve(bs, rs);
    if rs == [] {
      assert gs + Regions(rs, s.1) == gs;
    } else {
      var a := Alloc(bs, rs[0].bytes, rs[0].address);
      if rs[0].bytes > 0 {
        AllocKeepsPlaces(bs, gs, rs[0].bytes, rs[0].address);
        var g := Region(a.1.addr, rs[0].bytes);
        ServeKeepsPlaces(a.0, gs + [g], rs[1..]);
        assert gs + Regions(rs, s.1) == gs + [g] + Regions(rs[1..], s.1[1..]);
      } else {
        ServeKeepsPlaces(bs, gs, rs[1..]);
        assert Regions(rs, s.1) == Regions(rs[1..], s.1[1..]);
      }
    }
  }

  /** Every request for something gets an aligned address. */
  predicate Answered(rs: seq<Request>, ps: seq<Ptr>) {
    && |ps| == |rs|
    && (forall i | 0 <= i < |rs| :: ps[i].At? <==> rs[i].bytes > 0)
    && (forall i | 0 <= i < |rs| && ps[i].At? :: ps[i].addr % ALIGNMENT == 0)
  }

  lemma AllocAnswers(bs: seq<Block>, bytes: nat, address: nat)
    requires bs != [] && Placed(bs, bytes, address) && Aligned(bs)
    ensures var a := Alloc(bs, bytes, address);
      Aligned(a.0) && if bytes == 0 then a.1 == Null else a.1.At? && a.1.addr % ALIGNMENT == 0
  {
    if bytes > 0 { var k, b := AllocServes(bs, bytes, address); }
  }

  lemma {:induction false} ServeAnswers(bs: seq<Block>, rs: seq<Request>)
    requires bs != [] && AllPlaced(bs, rs) && Aligned(bs)
    ensures Answered(rs, Serve(bs, rs).1)
    decreases |rs|
  {
    hide Alloc, Aligned, Placed;
    if rs != [] {
      AllocAnswers(bs, rs[0].bytes, rs[0].address);
      ServeAnswers(Alloc(bs, rs[0].bytes, rs[0].address).0, rs[1..]);
    }
  }

  /** Whatever was requested since the last `release`: the regions are pairwise disjoint, each lies inside a
      block and starts pointer-aligned, and only a request for nothing returns null. */
  lemma RegionsSinceRelease(bs: seq<Block>, rs: seq<Request>)
    requires bs != [] && AllPlaced(Reset(bs), rs)
    requires forall i, j | 0 <= i < j < |bs| :: Apart(Room(bs[i]), Room(bs[j]))
    requires forall i | 0 <= i < |bs| :: bs[i].base % ALIGNMENT == 0
    ensures var s := Serve(Reset(bs), rs); WellPlaced(s.0, Regions(rs, s.1)) && Answered(rs, s.1)
  {
    ServeKeepsPlaces(Reset(bs), [], rs);
    ServeAnswers(Reset(bs), rs);
    assert [] + Regions(rs, Serve(Reset(bs), rs).1) == Regions(rs, Serve(Reset(bs), rs).1);
  }

  // ----- no more is used than needed -----

  /** The first block with room serves a request, its region starts at that block's pointer, and the next region of
      the block starts at the least aligned address behind it. A new block comes last, and only if none has room. */
  lemma FirstFit(bs: seq<Block>, bytes: nat, address: nat) returns (k: nat)
    requires bs != [] && bytes > 0
    ensures forall i | 0 <= i < k && i < |bs| :: bs[i].ptr + bytes > bs[i].base + bs[i].size
    ensures k <= |bs| && k < |Alloc(bs, bytes, address).0|
    ensures var (bs', p) := Alloc(bs, bytes, address);
      && |bs'| == (if k < |bs| then |bs| else |bs| + 1)
      && (k < |bs| ==> p == At(bs[k].ptr) && bs[k].ptr + bytes <= bs[k].base + bs[k].size)
      && (k == |bs| ==> p == At(address))
      && p.At? && p.addr + bytes <= bs'[k].ptr < p.addr + bytes + ALIGNMENT && bs'[k].ptr % ALIGNMENT == 0
      && forall i | 0 <= i < |bs| && i != k :: bs'[i] == bs[i]
  {
    if Fits(bs[0], bytes) {
      k := 0;
    } else if |bs| == 1 {
      k := 1;
    } else {
      var rest := FirstFit(bs[1..], bytes, address);
      k := rest + 1;
      forall i | 0 <= i < k && i < |bs| ensures !Fits(bs[i], bytes) {
        if i > 0 { assert bs[i] == bs[1..][i - 1]; }
      }
      var (bs', p) := Alloc(bs, bytes, address);
      var (rest', q) := Alloc(bs[1..], bytes, address);
      assert bs' == [bs[0]] + rest' && bs == [bs[0]] + bs[1..];
    }
  }
}

/** What was written is read back: an isomorphic graph of objects, with nothing left over. */
module SerializationRoundTrip {
  import opened Serialization

  // ----- where values end up -----

  type Ids = map<Ptr, nat>

  /** A pointer, with objects renamed to their IDs. */
  function ImagePtr(p: Ptr, ids: Ids): Ptr {
    if p in ids && p.At? then At(ids[p]) else Null
  }

  function Image(v: Value, ids: Ids): Value
    decreases v
  {
    match v
    case Num(_) => v
    case Rec(fields) => Rec(ImageFields(fields, ids))
    case Ref(p) => Ref(ImagePtr(p, ids))
  }

  function ImageValues(vs: seq<Value>, ids: Ids): (r: seq<Value>)
    ensures |r| == |vs|
    decreases vs
  {
    seq(|vs|, i requires 0 <= i < |vs| => Image(vs[i], ids))
  }

  function ImageField(f: Field, ids: Ids): Field
    decreases f
  {
    match f
    case Single(v) => Single(Image(v, ids))
    case Many(vs) => Many(ImageValues(vs, ids))
  }

  function ImageFields(fields: seq<Field>, ids: Ids): (r: seq<Field>)
    ensures |r| == |fields|
    decreases fields
  {
    seq(|fields|, i requires 0 <= i < |fields| => ImageField(fields[i], ids))
  }

  function ImageObj(o: Obj, ids: Ids): Obj { Obj(o.className, ImageFields(o.fields, ids)) }

  /** All pointers in it have IDs. */
  predicate Seen(v: Value, ids: Ids)
    decreases v
  {
    match v
    case Num(_) => true
    case Rec(fields) => SeenFields(fields, ids)
    case Ref(p) => p in ids
  }

  predicate SeenValues(vs: seq<Value>, ids: Ids)
    decreases vs
  {
    forall i | 0 <= i < |vs| :: Seen(vs[i], ids)
  }

  predicate SeenField(f: Field, ids: Ids)
    decreases f
  {
    match f
    case Single(v) => Seen(v, ids)
    case Many(vs) => SeenValues(vs, ids)
  }

  predicate SeenFields(fields: seq<Field>, ids: Ids)
    decreases fields
  {
    forall i | 0 <= i < |fields| :: SeenField(fields[i], ids)
  }

  predicate Grows(ids: Ids, ids': Ids) { forall p | p in ids :: p in ids' && ids'[p] == ids[p] }

  lemma {:induction false} ValueStable(v: Value, ids: Ids, ids': Ids)
    requires Grows(ids, ids') && Seen(v, ids)
    ensures Seen(v, ids') && Image(v, ids') == Image(v, ids)
    decreases v
  {
    if v.Rec? { FieldsStable(v.fields, ids, ids'); }
  }

  lemma {:induction false} ValuesStable(vs: seq<Value>, ids: Ids, ids': Ids)
    requires Grows(ids, ids') && SeenValues(vs, ids)
    ensures SeenValues(vs, ids') && ImageValues(vs, ids') == ImageValues(vs, ids)
    decreases vs
  {
    forall i | 0 <= i < |vs| ensures Seen(vs[i], ids') && Image(vs[i], ids') == Image(vs[i], ids) {
      ValueStable(vs[i], ids, ids');
    }
  }

  lemma {:induction false} FieldStable(f: Field, ids: Ids, ids': Ids)
    requires Grows(ids, ids') && SeenField(f, ids)
    ensures SeenField(f, ids') && ImageField(f, ids') == ImageField(f, ids)
    decreases f
  {
    if f.Single? { ValueStable(f.v, ids, ids'); } else { ValuesStable(f.vs, ids, ids'); }
  }

  lemma {:induction false} FieldsStable(fields: seq<Field>, ids: Ids, ids': Ids)
    requires Grows(ids, ids') && SeenFields(fields, ids)
    ensures SeenFields(fields, ids') && ImageFields(fields, ids') == ImageFields(fields, ids)
    decreases fields
  {
    forall i | 0 <= i < |fields|
      ensures SeenField(fields[i], ids') && ImageField(fields[i], ids') == ImageField(fields[i], ids)
    {
      FieldStable(fields[i], ids, ids');
    }
  }

  /** Values without pointers are their own images. */
  lemma {:induction false} PlainImage(c: Context, t: Type, v: Value, ids: Ids)
    requires Plain(t) && ValueOk(c, t, v)
    ensures Image(v, ids) == v
    decreases v
  {
    if v.Rec? {
      forall i | 0 <= i < |v.fields| ensures ImageField(v.fields[i], ids) == v.fields[i] {
        PlainFieldImage(c, t.members[i], v.fields[i], ids);
      }
      assert ImageFields(v.fields, ids) == v.fields;
    }
  }

  lemma {:induction false} PlainFieldImage(c: Context, m: Member, f: Field, ids: Ids)
    requires Plain(m.t) && FieldOk(c, m, f)
    ensures ImageField(f, ids) == f
    decreases f
  {
    if f.Single? {
      PlainImage(c, m.t, f.v, ids);
    } else {
      PlainValuesImage(c, m.t, f.vs, ids);
    }
  }

  lemma {:induction false} PlainValuesImage(c: Context, t: Type, vs: seq<Value>, ids: Ids)
    requires Plain(t) && ElementsOk(c, t, vs)
    ensures ImageValues(vs, ids) == vs
    decreases vs
  {
    forall i | 0 <= i < |vs| ensures Image(vs[i], ids) == vs[i] { PlainImage(c, t, vs[i], ids); }
  }

  // ----- writer and reader in step -----

  /** IDs are below the next one, differ between objects, and null has one. */
  predicate WriterOk(w: Writer) {
    && Null in w.ids
    && (forall p | p in w.ids :: w.ids[p] < w.next)
    && (forall p, q | p in w.ids && q in w.ids && w.ids[p] == w.ids[q] :: p == q)
  }

  /** The reader knows the written objects under their IDs, and no others. */
  predicate InStep(w: Writer, r: Reader) {
    && (forall p | p in w.ids :: w.ids[p] in r.known && r.known[w.ids[p]] == ImagePtr(p, w.ids))
    && (forall i | i in r.known :: i < w.next)
    && (forall i | i in r.heap :: i < w.next)
  }

  function NewIds(w: Writer, w': Writer): set<nat> {
    set p | p in w'.ids && p !in w.ids && p.At? :: w'.ids[p]
  }

  /** The object p was written and has been read completely. */
  predicate Restored(c: Context, p: Ptr, ids: Ids, heap: map<nat, Obj>)
    requires p in ids && p.At?
  {
    && p.address in c.heap && SeenFields(c.heap[p.address].fields, ids)
    && ids[p] in heap && heap[ids[p]] == ImageObj(c.heap[p.address], ids)
  }

  predicate NewRestored(c: Context, w: Writer, w': Writer, heap: map<nat, Obj>) {
    forall p | p in w'.ids && p !in w.ids :: p.At? && w.next <= w'.ids[p] && Restored(c, p, w'.ids, heap)
  }

  predicate Extends(heap: map<nat, Obj>, heap': map<nat, Obj>) {
    forall i | i in heap :: i in heap' && heap'[i] == heap[i]
  }

  /** Writing took w to w', and reading took r to r': what was written in between has been restored. */
  ghost predicate Step(c: Context, w: Writer, w': Writer, r: Reader, r': Reader) {
    && WriterOk(w') && InStep(w', r') && Grows(w.ids, w'.ids) && w.next <= w'.next
    && NewRestored(c, w, w', r'.heap) && Extends(r.heap, r'.heap)
    && r'.heap.Keys == r.heap.Keys + NewIds(w, w')
  }

  lemma StepNone(c: Context, w: Writer, r: Reader, r': Reader)
    requires WriterOk(w) && InStep(w, r) && r'.known == r.known && r'.heap == r.heap
    ensures Step(c, w, w, r, r')
  {
    assert NewIds(w, w) == {};
  }

  lemma NewIdsAdd(w: Writer, w1: Writer, w2: Writer)
    requires Grows(w.ids, w1.ids) && Grows(w1.ids, w2.ids)
    ensures NewIds(w, w2) == NewIds(w, w1) + NewIds(w1, w2)
  {
    forall i | i in NewIds(w, w1) ensures i in NewIds(w, w2) {
      var p :| p in w1.ids && p !in w.ids && p.At? && w1.ids[p] == i;
      assert p in w2.ids && w2.ids[p] == i;
    }
    forall i | i in NewIds(w1, w2) ensures i in NewIds(w, w2) {
      var p :| p in w2.ids && p !in w1.ids && p.At? && w2.ids[p] == i;
      assert p !in w.ids;
    }
    forall i | i in NewIds(w, w2) ensures i in NewIds(w, w1) || i in NewIds(w1, w2) {
      var p :| p in w2.ids && p !in w.ids && p.At? && w2.ids[p] == i;
      if p in w1.ids { assert w1.ids[p] == i; }
    }
  }

  lemma RestoredLater(c: Context, p: Ptr, ids: Ids, ids': Ids, heap: map<nat, Obj>, heap': map<nat, Obj>)
    requires p in ids && p.At? && Grows(ids, ids') && Restored(c, p, ids, heap)
    requires ids[p] in heap' && heap'[ids[p]] == heap[ids[p]]
    ensures p in ids' && Restored(c, p, ids', heap')
  {
    FieldsStable(c.heap[p.address].fields, ids, ids');
  }

  lemma RestoredAfter(c: Context, w: Writer, w1: Writer, w2: Writer, heap1: map<nat, Obj>, heap2: map<nat, Obj>)
    requires Grows(w1.ids, w2.ids) && w.next <= w1.next && Extends(heap1, heap2)
    requires NewRestored(c, w, w1, heap1) && NewRestored(c, w1, w2, heap2)
    ensures NewRestored(c, w, w2, heap2)
  {
    hide ImageFields, SeenFields;
    forall p | p in w2.ids && p !in w.ids
      ensures p.At? && w.next <= w2.ids[p] && Restored(c, p, w2.ids, heap2)
    {
      if p in w1.ids {
        assert w1.ids[p] in heap1;
        RestoredLater(c, p, w1.ids, w2.ids, heap1, heap2);
      }
    }
  }

  lemma StepAfter(c: Context, w: Writer, w1: Writer, w2: Writer, r: Reader, r1: Reader, r2: Reader)
    requires Step(c, w, w1, r, r1) && Step(c, w1, w2, r1, r2)
    ensures Step(c, w, w2, r, r2)
  {
    hide NewRestored, WriterOk, InStep, NewIds;
    RestoredAfter(c, w, w1, w2, r1.heap, r2.heap);
    NewIdsAdd(w, w1, w2);
  }

  // ----- the round trip -----

  /** Reading gave the value and left the rest. */
  ghost predicate Arrived<T>(res: Result<T>, value: T, rest: seq<Token>) {
    res.Got? && res.value == value && res.r.tokens == rest
  }

  lemma Dropped(first: seq<Token>, rest: seq<Token>, n: nat)
    requires n == |first|
    ensures (first + rest)[n..] == rest && (n > 0 ==> first + rest != [] && (first + rest)[0] == first[0])
    ensures n > 1 ==> |first + rest| >= 2 && (first + rest)[1] == first[1]
  {
  }

  lemma NameRead(c: Context, name: string, r: Reader, rest: seq<Token>)
    requires r.tokens == NameTokens(c, name) + rest
    ensures Match(c, name, r) == Got(true, r.(tokens := rest))
  {
    Dropped(NameTokens(c, name), rest, |NameTokens(c, name)|);
  }

  lemma BraceRead(c: Context, brace: Token, r: Reader, rest: seq<Token>)
    requires r.tokens == (if c.named then [brace] else []) + rest
    ensures Brace(c, brace, r) == Got(true, r.(tokens := rest))
  {
    Dropped(if c.named then [brace] else [], rest, if c.named then 1 else 0);
  }

  lemma IntRead(n: int, r: Reader, rest: seq<Token>)
    requires r.tokens == [Int(n)] + rest
    ensures ReadInt(r) == Got(n, r.(tokens := rest))
  {
    Dropped([Int(n)], rest, 1);
  }

  lemma StepIgnoresTokens(c: Context, w: Writer, w': Writer, r: Reader, r': Reader, s: Reader, s': Reader)
    requires Step(c, w, w', r, r') && s.known == r.known && s.heap == r.heap && s'.known == r'.known && s'.heap == r'.heap
    ensures Step(c, w, w', s, s')
  {
  }

  /** An object met for the first time takes the next ID, known from then on. */
  lemma Entered(c: Context, a: nat, w: Writer, r: Reader, r1: Reader)
    requires WriterOk(w) && InStep(w, r) && At(a) !in w.ids
    requires r1.known == r.known[w.next := At(w.next)] && r1.heap == r.heap
    ensures WriterOk(Assigned(At(a), w)) && InStep(Assigned(At(a), w), r1) && Grows(w.ids, Assigned(At(a), w).ids)
    ensures w.next !in r.known && w.next !in r.heap
  {
  }

  lemma LeftIds(a: nat, w: Writer, w': Writer)
    requires WriterOk(w) && WriterOk(w') && At(a) !in w.ids && Grows(Assigned(At(a), w).ids, w'.ids)
    ensures Grows(w.ids, w'.ids) && At(a) in w'.ids && w'.ids[At(a)] == w.next
    ensures NewIds(w, w') == {w.next} + NewIds(Assigned(At(a), w), w')
  {
    var w1 := Assigned(At(a), w);
    assert At(a) in w1.ids && w1.ids[At(a)] == w.next;
    forall p | p in w.ids ensures p in w'.ids && w'.ids[p] == w.ids[p] { assert p in w1.ids && w1.ids[p] == w.ids[p]; }
    NewIdsAdd(w, w1, w');
    assert NewIds(w, w1) == {w.next} by {
      assert forall p | p in w1.ids && p !in w.ids :: p == At(a);
      assert w1.ids[At(a)] in NewIds(w, w1);
    }
  }

  lemma LeftRestored(c: Context, a: nat, w: Writer, w': Writer, heap: map<nat, Obj>, heap': map<nat, Obj>)
    requires WriterOk(w') && At(a) !in w.ids && a in c.heap && At(a) in w'.ids && w'.ids[At(a)] == w.next
    requires SeenFields(c.heap[a].fields, w'.ids) && heap' == heap[w.next := ImageObj(c.heap[a], w'.ids)]
    requires NewRestored(c, Assigned(At(a), w), w', heap)
    ensures NewRestored(c, w, w', heap')
  {
    hide ImageFields, SeenFields, WriterOk;
    forall p | p in w'.ids && p !in w.ids
      ensures p.At? && w.next <= w'.ids[p] && Restored(c, p, w'.ids, heap')
    {
      if p != At(a) { assert p !in Assigned(At(a), w).ids; }
    }
  }

  lemma LeftInStep(w: Writer, r: Reader, r': Reader, id: nat, o: Obj)
    requires InStep(w, r) && id < w.next && r'.known == r.known && r'.heap == r.heap[id := o]
    ensures InStep(w, r')
  {
  }

  /** When its members have been read, it is restored. */
  lemma Left(c: Context, a: nat, w: Writer, w': Writer, r: Reader, r1: Reader, r2: Reader, r3: Reader)
    requires WriterOk(w) && w.next !in r.heap && At(a) !in w.ids && a in c.heap
    requires r1.heap == r.heap && Step(c, Assigned(At(a), w), w', r1, r2)
    requires SeenFields(c.heap[a].fields, w'.ids)
    requires r3.known == r2.known && r3.heap == r2.heap[w.next := ImageObj(c.heap[a], w'.ids)]
    ensures Step(c, w, w', r, r3) && At(a) in w'.ids && w'.ids[At(a)] == w.next
  {
    hide ImageFields, SeenFields, NewIds, NewRestored, InStep, WriterOk;
    LeftIds(a, w, w');
    LeftRestored(c, a, w, w', r2.heap, r3.heap);
    LeftInStep(w', r2, r3, w.next, ImageObj(c.heap[a], w'.ids));
    assert r3.heap.Keys == r2.heap.Keys + {w.next};
  }

  ghost predicate ObjectCame(c: Context, p: Ptr, w: Writer, w': Writer, r: Reader, res: Result<Value>, rest: seq<Token>) {
    Arrived(res, Ref(ImagePtr(p, w'.ids)), rest) && p in w'.ids && Step(c, w, w', r, res.r)
  }

  ghost predicate ValueCame(c: Context, v: Value, w: Writer, w': Writer, r: Reader, res: Result<Value>, rest: seq<Token>) {
    Arrived(res, Image(v, w'.ids), rest) && Seen(v, w'.ids) && Step(c, w, w', r, res.r)
  }

  ghost predicate ValuesCame(c: Context, vs: seq<Value>, w: Writer, w': Writer, r: Reader, res: Result<seq<Value>>,
                             rest: seq<Token>)
  {
    Arrived(res, ImageValues(vs, w'.ids), rest) && SeenValues(vs, w'.ids) && Step(c, w, w', r, res.r)
  }

  ghost predicate FieldCame(c: Context, f: Field, w: Writer, w': Writer, r: Reader, res: Result<Field>, rest: seq<Token>) {
    Arrived(res, ImageField(f, w'.ids), rest) && SeenField(f, w'.ids) && Step(c, w, w', r, res.r)
  }

  ghost predicate FieldsCame(c: Context, fields: seq<Field>, w: Writer, w': Writer, r: Reader, res: Result<seq<Field>>,
                             rest: seq<Token>)
  {
    Arrived(res, ImageFields(fields, w'.ids), rest) && SeenFields(fields, w'.ids) && Step(c, w, w', r, res.r)
  }

  ghost predicate Ready(c: Context, w: Writer, r: Reader) { c.Valid() && WriterOk(w) && InStep(w, r) }

  /** The reader in front of the members of an object met for the first time. */
  function Inside(id: nat, r: Reader, tokens: seq<Token>): Reader { Reader(tokens, r.known[id := At(id)], r.heap) }

  /** An object met for the first time, token by token. */
  lemma ObjectRead(c: Context, id: nat, className: string, r: Reader, inner: seq<Token>, fields: seq<Field>, r2: Reader,
                   rest: seq<Token>)
    requires id !in r.known && className != "nullptr" && className in c.schema
    requires r.tokens == [Id(id), Class(className)] + (OpenTokens(c) + inner)
    requires ReadFields(c, c.schema[className], Inside(id, r, inner)) == Got(fields, r2)
    requires r2.tokens == CloseTokens(c) + rest
    ensures ReadObject(c, r) == Got(Ref(At(id)), Reader(rest, r2.known, r2.heap[id := Obj(className, fields)]))
  {
    hide ReadFields;
    Dropped([Id(id), Class(className)], OpenTokens(c) + inner, 2);
    BraceRead(c, Open, Inside(id, r, OpenTokens(c) + inner), inner);
    BraceRead(c, Close, r2, rest);
  }

  /** The object itself, once its members are known to come back. */
  lemma NewObjectCame(c: Context, a: nat, w: Writer, w': Writer, body: seq<Token>, r: Reader, rest: seq<Token>)
    requires Ready(c, w, r) && a in c.heap && At(a) !in w.ids
    requires r.tokens == [Id(w.next), Class(c.heap[a].className)] + OpenTokens(c) + body + CloseTokens(c) + rest
    requires var r1 := Inside(w.next, r, body + (CloseTokens(c) + rest));
      FieldsCame(c, c.heap[a].fields, Assigned(At(a), w), w', r1, ReadFields(c, c.schema[c.heap[a].className], r1),
                 CloseTokens(c) + rest)
    ensures ObjectCame(c, At(a), w, w', r, ReadObject(c, r), rest)
  {
    hide Image, ImageFields, SeenFields, Step, ReadFields, ReadObject, WriterOk, InStep;
    var obj, inner := c.heap[a], body + (CloseTokens(c) + rest);
    assert r.tokens == [Id(w.next), Class(obj.className)] + (OpenTokens(c) + inner);
    var r1 := Inside(w.next, r, inner);
    var read := ReadFields(c, c.schema[obj.className], r1);
    Entered(c, a, w, r, r1);
    ObjectRead(c, w.next, obj.className, r, inner, read.value, read.r, rest);
    Left(c, a, w, w', r, r1, read.r, Reader(rest, read.r.known, read.r.heap[w.next := ImageObj(obj, w'.ids)]));
  }

  /** The members up to the last, and the last. */
  lemma FieldsJoin(c: Context, members: seq<Member>, fields: seq<Field>, w: Writer, w1: Writer, w2: Writer, r: Reader,
                   more: seq<Token>, rest: seq<Token>)
    requires |members| == |fields| > 0
    requires var n := |fields| - 1;
      var front := ReadFields(c, members[..n], r);
      && FieldsCame(c, fields[..n], w, w1, r, front, more)
      && FieldCame(c, fields[n], w1, w2, front.r, ReadField(c, members[n], front.r), rest)
    ensures FieldsCame(c, fields, w, w2, r, ReadFields(c, members, r), rest)
  {
    hide Step, ReadField, ImageField, SeenField;
    var n := |fields| - 1;
    var front := ReadFields(c, members[..n], r);
    var last := ReadField(c, members[n], front.r);
    StepGrows(c, w1, w2, front.r, last.r);
    FieldsStable(fields[..n], w1.ids, w2.ids);
    StepAfter(c, w, w1, w2, r, front.r, last.r);
    assert ImageFields(fields, w2.ids) == ImageFields(fields[..n], w2.ids) + [ImageField(fields[n], w2.ids)];
  }

  lemma StepGrows(c: Context, w: Writer, w': Writer, r: Reader, r': Reader)
    requires Step(c, w, w', r, r')
    ensures Grows(w.ids, w'.ids) && (c.Valid() ==> Ready(c, w', r'))
  {
  }

  /** What is appended to a vector, or inserted into a set in order, comes last. */
  lemma ElementAdded(c: Context, m: Member, vs: seq<Value>, ids: Ids)
    requires !m.One? && vs != [] && (m.Set? ==> Plain(m.t) && Ordered(c, vs)) && ElementsOk(c, m.t, vs)
    ensures var front, last := ImageValues(vs[..|vs| - 1], ids), Image(vs[|vs| - 1], ids);
      ImageValues(vs, ids) == if m.Set? then Insert(c, front, last) else front + [last]
  {
    var n := |vs| - 1;
    assert ImageValues(vs, ids) == ImageValues(vs[..n], ids) + [Image(vs[n], ids)];
    if m.Set? {
      PlainValuesImage(c, m.t, vs[..n], ids);
      PlainImage(c, m.t, vs[n], ids);
      assert n > 0 ==> c.less(vs[n - 1], vs[n]);
    }
  }

  /** The elements up to the last, the name, and the last. */
  lemma ElementsJoin(c: Context, m: Member, vs: seq<Value>, w: Writer, w1: Writer, w2: Writer, r: Reader,
                     more: seq<Token>, named: Reader, rest: seq<Token>)
    requires !m.One? && vs != [] && (m.Set? ==> Plain(m.t) && Ordered(c, vs)) && ElementsOk(c, m.t, vs)
    requires var front := ReadElements(c, m, |vs| - 1, r);
      && ValuesCame(c, vs[..|vs| - 1], w, w1, r, front, more)
      && Match(c, m.element, front.r) == Got(true, named) && named.known == front.r.known && named.heap == front.r.heap
    requires ValueCame(c, vs[|vs| - 1], w1, w2, named, ReadValue(c, m.t, named), rest)
    ensures ValuesCame(c, vs, w, w2, r, ReadElements(c, m, |vs|, r), rest)
  {
    hide Step, ReadValue, Image, Seen, Insert, Match;
    var n := |vs| - 1;
    var front := ReadElements(c, m, n, r);
    var last := ReadValue(c, m.t, named);
    StepGrows(c, w1, w2, named, last.r);
    ValuesStable(vs[..n], w1.ids, w2.ids);
    StepIgnoresTokens(c, w1, w2, named, last.r, front.r, last.r);
    StepAfter(c, w, w1, w2, r, front.r, last.r);
    ElementAdded(c, m, vs, w2.ids);
  }

  // ----- what is written, step by step -----

  lemma NoElements(c: Context, m: Member, w: Writer, r: Reader, rest: seq<Token>)
    requires Ready(c, w, r) && !m.One?
    ensures var none := WriteElements(c, m.element, m.t, [], w);
      r.tokens == none.tokens + rest ==> ValuesCame(c, [], w, none.w, r, ReadElements(c, m, 0, r), rest)
  {
    if r.tokens == [] + rest { StepNone(c, w, r, r); }
  }

  lemma ElementsSplit(c: Context, element: string, t: Type, vs: seq<Value>, w: Writer, rest: seq<Token>)
    requires c.Valid() && vs != [] && ElementsOk(c, t, vs)
    ensures var n := |vs| - 1;
      var front := WriteElements(c, element, t, vs[..n], w);
      var last := WriteValue(c, t, vs[n], front.w);
      var all := WriteElements(c, element, t, vs, w);
      all.w == last.w && all.tokens + rest == front.tokens + (NameTokens(c, element) + (last.tokens + rest))
  {
    hide WriteValue;
  }

  lemma FieldSplit(c: Context, m: Member, f: Field, w: Writer, rest: seq<Token>)
    requires c.Valid() && FieldOk(c, m, f)
    ensures var all := WriteField(c, m, f, w);
      match f
      case Single(v) =>
        var one := WriteValue(c, m.t, v, w);
        all.w == one.w && all.tokens + rest == NameTokens(c, m.name) + (one.tokens + rest)
      case Many(vs) =>
        var each := WriteElements(c, m.element, m.t, vs, w);
        all.w == each.w && all.tokens + rest == NameTokens(c, m.name) + ([Int(|vs|)] + (each.tokens + rest))
  {
    hide WriteValue, WriteElements;
  }

  lemma NoFields(c: Context, w: Writer, r: Reader, rest: seq<Token>)
    requires Ready(c, w, r)
    ensures var none := WriteFields(c, [], [], w);
      r.tokens == none.tokens + rest ==> FieldsCame(c, [], w, none.w, r, ReadFields(c, [], r), rest)
  {
    if r.tokens == [] + rest { StepNone(c, w, r, r); }
  }

  lemma FieldsSplit(c: Context, members: seq<Member>, fields: seq<Field>, w: Writer, rest: seq<Token>)
    requires c.Valid() && fields != [] && FieldsOk(c, members, fields)
    ensures var n := |fields| - 1;
      var front := WriteFields(c, members[..n], fields[..n], w);
      var last := WriteField(c, members[n], fields[n], front.w);
      var all := WriteFields(c, members, fields, w);
      all.w == last.w && all.tokens + rest == front.tokens + (last.tokens + rest)
  {
    hide WriteField;
  }

  // ----- by induction over what is written -----

  lemma {:induction false} ObjectBack(c: Context, p: Ptr, w: Writer, r: Reader, rest: seq<Token>)
    requires Ready(c, w, r) && (p.At? ==> p.address in c.heap)
    requires r.tokens == WriteObject(c, p, w).tokens + rest
    ensures ObjectCame(c, p, w, WriteObject(c, p, w).w, r, ReadObject(c, r), rest)
    decreases |Pending(c, w)|, 0
  {
    if p in w.ids {
      Dropped([Id(w.ids[p])], rest, 1);
      StepNone(c, w, r, ReadObject(c, r).r);
    } else {
      var obj, w1 := c.heap[p.address], Assigned(p, w);
      AssignedPending(c, p.address, w);
      var body := WriteFields(c, c.schema[obj.className], obj.fields, w1);
      var r1 := Inside(w.next, r, body.tokens + (CloseTokens(c) + rest));
      Entered(c, p.address, w, r, r1);
      FieldsBack(c, c.schema[obj.className], obj.fields, w1, r1, CloseTokens(c) + rest);
      NewObjectCame(c, p.address, w, body.w, body.tokens, r, rest);
    }
  }

  lemma {:induction false} ValueBack(c: Context, t: Type, v: Value, w: Writer, r: Reader, rest: seq<Token>)
    requires Ready(c, w, r) && ValueOk(c, t, v)
    requires r.tokens == WriteValue(c, t, v, w).tokens + rest
    ensures ValueCame(c, v, w, WriteValue(c, t, v, w).w, r, ReadValue(c, t, r), rest)
    decreases |Pending(c, w)|, 1, v
  {
    match v
    case Num(n) =>
      IntRead(n, r, rest);
      StepNone(c, w, r, r.(tokens := rest));
    case Rec(fields) => FieldsBack(c, t.members, fields, w, r, rest);
    case Ref(p) => ObjectBack(c, p, w, r, rest);
  }

  lemma {:induction false} ElementsBack(c: Context, m: Member, vs: seq<Value>, w: Writer, r: Reader, rest: seq<Token>)
    requires Ready(c, w, r) && !m.One? && ElementsOk(c, m.t, vs) && (m.Set? ==> Plain(m.t) && Ordered(c, vs))
    requires r.tokens == WriteElements(c, m.element, m.t, vs, w).tokens + rest
    ensures ValuesCame(c, vs, w, WriteElements(c, m.element, m.t, vs, w).w, r, ReadElements(c, m, |vs|, r), rest)
    decreases |Pending(c, w)|, 1, vs
  {
    hide Step, WriterOk, InStep, ReadValue, WriteValue, ReadElements, WriteElements, Image, Seen, ValuesCame, ValueCame,
         Ordered;
    if vs == [] {
      NoElements(c, m, w, r, rest);
    } else {
      var n := |vs| - 1;
      var front := WriteElements(c, m.element, m.t, vs[..n], w);
      var last := WriteValue(c, m.t, vs[n], front.w);
      var more := NameTokens(c, m.element) + (last.tokens + rest);
      ElementsSplit(c, m.element, m.t, vs, w, rest);
      FirstOrdered(c, vs, n);
      ElementsBack(c, m, vs[..n], w, r, more);
      ValuesLeft(c, vs[..n], w, front.w, r, ReadElements(c, m, n, r), more);
      var read := ReadElements(c, m, n, r).r;
      NameRead(c, m.element, read, last.tokens + rest);
      var named := read.(tokens := last.tokens + rest);
      StepReady(c, front.w, read, named);
      ValueBack(c, m.t, vs[n], front.w, named, rest);
      ElementsJoin(c, m, vs, w, front.w, last.w, r, more, named, rest);
    }
  }

  lemma FirstOrdered(c: Context, vs: seq<Value>, n: nat)
    requires n <= |vs|
    ensures Ordered(c, vs) ==> Ordered(c, vs[..n])
  {
  }

  lemma ValuesLeft(c: Context, vs: seq<Value>, w: Writer, w': Writer, r: Reader, res: Result<seq<Value>>, rest: seq<Token>)
    requires ValuesCame(c, vs, w, w', r, res, rest) && c.Valid()
    ensures res.Got? && res.r.tokens == rest && Ready(c, w', res.r)
  {
  }

  lemma {:induction false} FieldBack(c: Context, m: Member, f: Field, w: Writer, r: Reader, rest: seq<Token>)
    requires Ready(c, w, r) && FieldOk(c, m, f)
    requires r.tokens == WriteField(c, m, f, w).tokens + rest
    ensures FieldCame(c, f, w, WriteField(c, m, f, w).w, r, ReadField(c, m, r), rest)
    decreases |Pending(c, w)|, 1, f
  {
    hide Step, WriterOk, InStep, ReadValue, WriteValue, ReadElements, WriteElements, WriteField, ReadField, ValuesCame,
         ValueCame, FieldCame;
    FieldSplit(c, m, f, w, rest);
    match f
    case Single(v) =>
      var one := WriteValue(c, m.t, v, w);
      var named := r.(tokens := one.tokens + rest);
      StepReady(c, w, r, named);
      ValueBack(c, m.t, v, w, named, rest);
      OneCame(c, m, v, w, one.w, r, named, rest);
    case Many(vs) =>
      var all := WriteElements(c, m.element, m.t, vs, w);
      var counted := r.(tokens := all.tokens + rest);
      StepReady(c, w, r, counted);
      ElementsBack(c, m, vs, w, counted, rest);
      ManyCame(c, m, vs, w, all.w, r, counted, rest);
  }

  lemma StepReady(c: Context, w: Writer, r: Reader, r': Reader)
    requires Ready(c, w, r) && r'.known == r.known && r'.heap == r.heap
    ensures Ready(c, w, r')
  {
  }

  lemma OneCame(c: Context, m: Member, v: Value, w: Writer, w': Writer, r: Reader, named: Reader, rest: seq<Token>)
    requires m.One? && r.tokens == NameTokens(c, m.name) + named.tokens && named == r.(tokens := named.tokens)
    requires ValueCame(c, v, w, w', named, ReadValue(c, m.t, named), rest)
    ensures FieldCame(c, Single(v), w, w', r, ReadField(c, m, r), rest)
  {
    hide Step, ReadValue, Image, Seen, Match;
    NameRead(c, m.name, r, named.tokens);
    StepIgnoresTokens(c, w, w', named, ReadValue(c, m.t, named).r, r, ReadValue(c, m.t, named).r);
  }

  lemma ManyCame(c: Context, m: Member, vs: seq<Value>, w: Writer, w': Writer, r: Reader, counted: Reader,
                 rest: seq<Token>)
    requires !m.One? && r.tokens == NameTokens(c, m.name) + ([Int(|vs|)] + counted.tokens)
    requires counted == r.(tokens := counted.tokens)
    requires ValuesCame(c, vs, w, w', counted, ReadElements(c, m, |vs|, counted), rest)
    ensures FieldCame(c, Many(vs), w, w', r, ReadField(c, m, r), rest)
  {
    hide Step, ReadElements, Image, ImageValues, Seen, SeenValues, Match, ReadInt;
    NameRead(c, m.name, r, [Int(|vs|)] + counted.tokens);
    IntRead(|vs|, r.(tokens := [Int(|vs|)] + counted.tokens), counted.tokens);
    var read := ReadElements(c, m, |vs|, counted);
    StepIgnoresTokens(c, w, w', counted, read.r, r, read.r);
  }

  lemma {:induction false} FieldsBack(c: Context, members: seq<Member>, fields: seq<Field>, w: Writer, r: Reader,
                                      rest: seq<Token>)
    requires Ready(c, w, r) && FieldsOk(c, members, fields)
    requires r.tokens == WriteFields(c, members, fields, w).tokens + rest
    ensures FieldsCame(c, fields, w, WriteFields(c, members, fields, w).w, r, ReadFields(c, members, r), rest)
    decreases |Pending(c, w)|, 1, fields
  {
    hide Step, WriterOk, InStep, ReadFields, WriteFields, WriteField, ReadField, FieldsCame, FieldCame;
    if fields == [] {
      NoFields(c, w, r, rest);
    } else {
      var n := |fields| - 1;
      var front := WriteFields(c, members[..n], fields[..n], w);
      var last := WriteField(c, members[n], fields[n], front.w);
      FieldsSplit(c, members, fields, w, rest);
      FieldsBack(c, members[..n], fields[..n], w, r, last.tokens + rest);
      FieldsLeft(c, fields[..n], w, front.w, r, ReadFields(c, members[..n], r), last.tokens + rest);
      var read := ReadFields(c, members[..n], r).r;
      FieldBack(c, members[n], fields[n], front.w, read, rest);
      FieldsJoin(c, members, fields, w, front.w, last.w, r, last.tokens + rest, rest);
    }
  }

  lemma FieldsLeft(c: Context, fields: seq<Field>, w: Writer, w': Writer, r: Reader, res: Result<seq<Field>>, rest: seq<Token>)
    requires FieldsCame(c, fields, w, w', r, res, rest) && c.Valid()
    ensures res.Got? && res.r.tokens == rest && Ready(c, w', res.r)
  {
  }

  // ----- from a fresh output to a fresh input -----

  /** A new `Output`: null has ID 0, the first object gets 1. */
  const START := Writer(map[Null := 0], 1)

  /** A new `Input` in front of the tokens: ID 0 is null. */
  function Fresh(tokens: seq<Token>): Reader { Reader(tokens, map[0 := Null], map[]) }

  /** The objects read are the objects written, renamed one to one: same class, same data, and pointers that
      were equal or different before are so after. */
  ghost predicate Isomorphic(c: Context, ids: Ids, heap: map<nat, Obj>) {
    && (forall p, q | p in ids && q in ids :: p == q <==> ImagePtr(p, ids) == ImagePtr(q, ids))
    && heap.Keys == (set p | p in ids && p.At? :: ids[p])
    && (forall p | p in ids && p.At? ::
          p.address in c.heap && SeenFields(c.heap[p.address].fields, ids) && ids[p] in heap
          && heap[ids[p]] == ImageObj(c.heap[p.address], ids))
  }

  lemma StepIsomorphic(c: Context, w: Writer, r: Reader, r': Reader)
    requires Step(c, START, w, r, r') && r.heap == map[]
    ensures Isomorphic(c, w.ids, r'.heap)
  {
    hide ImageFields, SeenFields, Seen;
    assert NewIds(START, w) == set p | p in w.ids && p.At? :: w.ids[p];
    forall p | p in w.ids && p.At? ensures Restored(c, p, w.ids, r'.heap) { assert p !in START.ids; }
    assert START.ids[Null] == w.ids[Null];
  }

  /** An object written with everything it points to comes back as a graph of the same shape, shared objects
      shared and cycles closed, and nothing after it is touched. */
  lemma GraphBack(c: Context, root: Ptr, rest: seq<Token>)
    requires c.Valid() && (root.At? ==> root.address in c.heap)
    ensures var written := WriteObject(c, root, START);
      var res := ReadObject(c, Fresh(written.tokens + rest));
      && Arrived(res, Ref(ImagePtr(root, written.w.ids)), rest) && root in written.w.ids
      && Isomorphic(c, written.w.ids, res.r.heap)
  {
    var written := WriteObject(c, root, START);
    var r := Fresh(written.tokens + rest);
    ObjectBack(c, root, START, r, rest);
    StepIsomorphic(c, written.w, r, ReadObject(c, r).r);
  }

  /** Named values, structures, vectors and sets in any nesting come back as they were, pointers renamed. */
  lemma PropertiesBack(c: Context, members: seq<Member>, fields: seq<Field>, rest: seq<Token>)
    requires c.Valid() && FieldsOk(c, members, fields)
    ensures var written := WriteFields(c, members, fields, START);
      var res := ReadFields(c, members, Fresh(written.tokens + rest));
      && Arrived(res, ImageFields(fields, written.w.ids), rest) && SeenFields(fields, written.w.ids)
      && Isomorphic(c, written.w.ids, res.r.heap)
      && (Plain(Struct(members)) ==> res.value == fields)
  {
    var written := WriteFields(c, members, fields, START);
    var r := Fresh(written.tokens + rest);
    FieldsBack(c, members, fields, START, r, rest);
    StepIsomorphic(c, written.w, r, ReadFields(c, members, r).r);
    if Plain(Struct(members)) { PlainImage(c, Struct(members), Rec(fields), written.w.ids); }
  }
}

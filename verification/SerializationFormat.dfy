/** What the tokens of a stream look like, and what input makes of streams that no output wrote. */
module SerializationFormat {
  import opened Serialization

  // ----- what is written -----

  /** How many objects are spelled out with their class. */
  function Classes(tokens: seq<Token>): (n: nat) {
    if tokens == [] then 0 else Classes(tokens[..|tokens| - 1]) + if tokens[|tokens| - 1].Class? then 1 else 0
  }

  lemma {:induction false} ClassesAdd(a: seq<Token>, b: seq<Token>)
    ensures Classes(a + b) == Classes(a) + Classes(b)
  {
    if b == [] {
      assert a + b == a;
    } else {
      assert (a + b)[..|a + b| - 1] == a + b[..|b| - 1];
      ClassesAdd(a, b[..|b| - 1]);
    }
  }

  lemma OneToken(t: Token)
    ensures Classes([t]) == if t.Class? then 1 else 0
  {
    assert [t][..0] == [];
  }

  /** The class of an object is written once for each new ID: every further mention is the ID alone. */
  ghost predicate OnePerId(w: Writer, r: Written) { r.w.next == w.next + Classes(r.tokens) }

  lemma NoClass(c: Context, name: string)
    ensures Classes(NameTokens(c, name)) == Classes(OpenTokens(c)) == Classes(CloseTokens(c)) == 0
  {
    OneToken(Name(name));
    OneToken(Open);
    OneToken(Close);
  }

  lemma {:induction false} ObjectOnce(c: Context, p: Ptr, w: Writer)
    requires c.Valid() && (p.At? ==> p.address in c.heap)
    ensures OnePerId(w, WriteObject(c, p, w))
    decreases |Pending(c, w)|, 0
  {
    if p in w.ids {
      OneToken(Id(w.ids[p]));
    } else {
      var className := if p.Null? then "nullptr" else c.heap[p.address].className;
      ClassesAdd([Id(w.next)], [Class(className)]);
      OneToken(Id(w.next));
      OneToken(Class(className));
      assert [Id(w.next), Class(className)] == [Id(w.next)] + [Class(className)];
      if p.At? {
        AssignedPending(c, p.address, w);
        var fields := c.heap[p.address].fields;
        FieldsOnce(c, c.schema[className], fields, Assigned(p, w));
        var head, body := [Id(w.next), Class(className)], WriteFields(c, c.schema[className], fields, Assigned(p, w)).tokens;
        NoClass(c, "");
        ClassesAdd(head, OpenTokens(c));
        ClassesAdd(head + OpenTokens(c), body);
        ClassesAdd(head + OpenTokens(c) + body, CloseTokens(c));
      }
    }
  }

  lemma {:induction false} ValueOnce(c: Context, t: Type, v: Value, w: Writer)
    requires c.Valid() && ValueOk(c, t, v)
    ensures OnePerId(w, WriteValue(c, t, v, w))
    decreases |Pending(c, w)|, 1, v
  {
    match v
    case Num(n) => OneToken(Int(n));
    case Rec(fields) => FieldsOnce(c, t.members, fields, w);
    case Ref(p) => ObjectOnce(c, p, w);
  }

  lemma {:induction false} ElementsOnce(c: Context, element: string, t: Type, vs: seq<Value>, w: Writer)
    requires c.Valid() && ElementsOk(c, t, vs)
    ensures OnePerId(w, WriteElements(c, element, t, vs, w))
    decreases |Pending(c, w)|, 1, vs
  {
    if vs != [] {
      var n := |vs| - 1;
      var front := WriteElements(c, element, t, vs[..n], w);
      var last := WriteValue(c, t, vs[n], front.w);
      ElementsOnce(c, element, t, vs[..n], w);
      ValueOnce(c, t, vs[n], front.w);
      NoClass(c, element);
      ClassesAdd(front.tokens, NameTokens(c, element));
      ClassesAdd(front.tokens + NameTokens(c, element), last.tokens);
    }
  }

  lemma {:induction false} FieldOnce(c: Context, m: Member, f: Field, w: Writer)
    requires c.Valid() && FieldOk(c, m, f)
    ensures OnePerId(w, WriteField(c, m, f, w))
    decreases |Pending(c, w)|, 1, f
  {
    NoClass(c, m.name);
    match f
    case Single(v) =>
      ValueOnce(c, m.t, v, w);
      ClassesAdd(NameTokens(c, m.name), WriteValue(c, m.t, v, w).tokens);
    case Many(vs) =>
      ElementsOnce(c, m.element, m.t, vs, w);
      OneToken(Int(|vs|));
      ClassesAdd(NameTokens(c, m.name), [Int(|vs|)]);
      ClassesAdd(NameTokens(c, m.name) + [Int(|vs|)], WriteElements(c, m.element, m.t, vs, w).tokens);
  }

  lemma {:induction false} FieldsOnce(c: Context, members: seq<Member>, fields: seq<Field>, w: Writer)
    requires c.Valid() && FieldsOk(c, members, fields)
    ensures OnePerId(w, WriteFields(c, members, fields, w))
    decreases |Pending(c, w)|, 1, fields
  {
    if fields != [] {
      var n := |fields| - 1;
      var front := WriteFields(c, members[..n], fields[..n], w);
      FieldsOnce(c, members[..n], fields[..n], w);
      FieldOnce(c, members[n], fields[n], front.w);
      ClassesAdd(front.tokens, WriteField(c, members[n], fields[n], front.w).tokens);
    }
  }

  /** An object whose only member points to the object itself, in both formats. */
  lemma SelfLoopWritten(c: Context)
    requires c.Valid() && c.heap == map[7 := Obj("Node", [Single(Ref(At(7)))])]
    requires "Node" in c.schema && c.schema["Node"] == [One("next", Object)]
    ensures WriteObject(c, At(7), Writer(map[Null := 0], 1)).tokens
         == if c.named then [Id(1), Class("Node"), Open, Name("next"), Id(1), Close] else [Id(1), Class("Node"), Id(1)]
  {
    var w := Writer(map[Null := 0], 1);
    var w1 := Assigned(At(7), w);
    AssignedPending(c, 7, w);
    var fields := c.heap[7].fields;
    assert fields[..0] == [] && c.schema["Node"][..0] == [];
    assert WriteFields(c, [], [], w1) == Written([], w1);
    assert WriteObject(c, At(7), w1) == Written([Id(1)], w1);
    assert WriteField(c, One("next", Object), Single(Ref(At(7))), w1).tokens == NameTokens(c, "next") + [Id(1)];
    assert WriteFields(c, c.schema["Node"], fields, w1).tokens == [] + (NameTokens(c, "next") + [Id(1)]);
  }

  /** Two numbers in a vector: its name, how many there are, and each under the name of an element. */
  lemma TwoNumbersWritten(c: Context, a: int, b: int, w: Writer)
    requires c.Valid()
    ensures WriteField(c, Vector("values", "element", Number), Many([Num(a), Num(b)]), w).tokens
         == if c.named then [Name("values"), Int(2), Name("element"), Int(a), Name("element"), Int(b)]
            else [Int(2), Int(a), Int(b)]
  {
    var vs := [Num(a), Num(b)];
    assert vs[..1] == [Num(a)] && [Num(a)][..0] == [];
    assert WriteElements(c, "element", Number, [], w) == Written([], w);
    assert WriteElements(c, "element", Number, [Num(a)], w) == Written([] + NameTokens(c, "element") + [Int(a)], w);
    assert WriteElements(c, "element", Number, vs, w).tokens
        == [] + NameTokens(c, "element") + [Int(a)] + NameTokens(c, "element") + [Int(b)];
  }

  // ----- what is read -----

  /** An object of a class that cannot be created reads as null, and so does every later mention of its ID. */
  lemma UnknownClassIsNull(c: Context, id: nat, className: string, r: Reader, rest: seq<Token>)
    requires id !in r.known && className !in c.schema
    requires r.tokens == [Id(id), Class(className), Id(id)] + rest
    ensures var first := ReadObject(c, r);
      && first.Got? && first.value == Ref(Null) && first.r.tokens == [Id(id)] + rest
      && ReadObject(c, first.r) == Got(Ref(Null), Reader(rest, r.known[id := Null], r.heap))
  {
    assert r.tokens[2..] == [Id(id)] + rest;
    assert ([Id(id)] + rest)[1..] == rest;
  }

  /** Where the format has names, a member is read only under its own name. */
  lemma NamesMatter(c: Context, m: Member, r: Reader)
    requires c.named && m.name != "" && ReadField(c, m, r).Got?
    ensures r.tokens != [] && r.tokens[0] == Name(m.name)
  {
  }

  /** A new object is read only with its class after its ID and, where the format has braces, between braces. */
  lemma ObjectsNeedClasses(c: Context, r: Reader)
    requires ReadObject(c, r).Got?
    ensures r.tokens != [] && r.tokens[0].Id?
    ensures r.tokens[0].id !in r.known ==> |r.tokens| >= 2 && r.tokens[1].Class?
    ensures r.tokens[0].id !in r.known && r.tokens[1].s in c.schema && r.tokens[1].s != "nullptr" && c.named ==> (
      var id := r.tokens[0].id;
      && |r.tokens| >= 3 && r.tokens[2] == Open
      && var body := ReadFields(c, c.schema[r.tokens[1].s], Reader(r.tokens[3..], r.known[id := At(id)], r.heap));
      && body.Got? && body.r.tokens != [] && body.r.tokens[0] == Close && ReadObject(c, r).r.tokens == body.r.tokens[1..])
  {
    hide ReadFields;
    if |r.tokens| >= 3 { assert r.tokens[2..][1..] == r.tokens[3..]; }
  }

  ghost predicate Strict(less: (Value, Value) -> bool) {
    && (forall a :: !less(a, a))
    && (forall a, b, d | less(a, b) && less(b, d) :: less(a, d))
    && (forall a, b, d | less(a, d) :: less(a, b) || less(b, d))
  }

  lemma {:induction false} InsertHas(c: Context, vs: seq<Value>, v: Value, i: nat)
    requires i < |Insert(c, vs, v)|
    ensures Insert(c, vs, v)[i] == v || Insert(c, vs, v)[i] in vs
    decreases |vs|
  {
    if vs != [] && !c.less(vs[|vs| - 1], v) && c.less(v, vs[|vs| - 1]) && i < |Insert(c, vs, v)| - 1 {
      InsertHas(c, vs[..|vs| - 1], v, i);
    }
  }

  /** Insertion into a set keeps its order. */
  lemma {:induction false} InsertKeepsOrder(c: Context, vs: seq<Value>, v: Value)
    requires Strict(c.less) && Ordered(c, vs)
    ensures Ordered(c, Insert(c, vs, v))
    decreases |vs|
  {
    var all, n := Insert(c, vs, v), |vs| - 1;
    if vs == [] {
    } else if c.less(vs[n], v) {
      forall i | 0 <= i <= n ensures c.less(vs[i], v) { assert i < n ==> c.less(vs[i], vs[n]); }
    } else if c.less(v, vs[n]) {
      var front := Insert(c, vs[..n], v);
      InsertKeepsOrder(c, vs[..n], v);
      forall i | 0 <= i < |front| ensures c.less(front[i], vs[n]) {
        InsertHas(c, vs[..n], v, i);
        if front[i] != v {
          var k :| 0 <= k < n && vs[..n][k] == front[i];
          assert c.less(vs[k], vs[n]);
        }
      }
      assert all == front + [vs[n]];
    }
  }

  /** It adds the value unless an equivalent one is there. */
  lemma {:induction false} InsertAddsIff(c: Context, vs: seq<Value>, v: Value)
    requires Strict(c.less) && Ordered(c, vs)
    ensures multiset(Insert(c, vs, v)) == if HasEquivalent(c, vs, v) then multiset(vs) else multiset(vs) + multiset{v}
    decreases |vs|
  {
    hide Ordered, HasEquivalent;
    var n := |vs| - 1;
    if vs == [] {
      NoneEquivalent(c, v);
    } else if c.less(vs[n], v) {
      AllLess(c, vs, v);
    } else if c.less(v, vs[n]) {
      assert vs == vs[..n] + [vs[n]];
      FrontOrdered(c, vs);
      InsertAddsIff(c, vs[..n], v);
      EquivalentInFront(c, vs, v);
    } else {
      LastEquivalent(c, vs, v);
    }
  }

  predicate HasEquivalent(c: Context, vs: seq<Value>, v: Value) {
    exists i | 0 <= i < |vs| :: !c.less(vs[i], v) && !c.less(v, vs[i])
  }

  lemma NoneEquivalent(c: Context, v: Value)
    ensures !HasEquivalent(c, [], v)
  {
  }

  lemma LastEquivalent(c: Context, vs: seq<Value>, v: Value)
    requires vs != [] && !c.less(vs[|vs| - 1], v) && !c.less(v, vs[|vs| - 1])
    ensures HasEquivalent(c, vs, v)
  {
  }

  lemma EquivalentInFront(c: Context, vs: seq<Value>, v: Value)
    requires vs != [] && c.less(v, vs[|vs| - 1])
    ensures HasEquivalent(c, vs, v) <==> HasEquivalent(c, vs[..|vs| - 1], v)
  {
    var front := vs[..|vs| - 1];
    if i :| 0 <= i < |vs| && !c.less(vs[i], v) && !c.less(v, vs[i]) { assert front[i] == vs[i]; }
    if i :| 0 <= i < |front| && !c.less(front[i], v) && !c.less(v, front[i]) { assert vs[i] == front[i]; }
  }

  lemma FrontOrdered(c: Context, vs: seq<Value>)
    requires vs != [] && Ordered(c, vs)
    ensures Ordered(c, vs[..|vs| - 1])
  {
  }

  lemma AllLess(c: Context, vs: seq<Value>, v: Value)
    requires Strict(c.less) && Ordered(c, vs) && vs != [] && c.less(vs[|vs| - 1], v)
    ensures !HasEquivalent(c, vs, v)
  {
    forall i | 0 <= i < |vs| ensures c.less(vs[i], v) { assert i < |vs| - 1 ==> c.less(vs[i], vs[|vs| - 1]); }
  }
}

/** Writing graphs of objects with named properties to a stream of tokens and reading them back. */
module Serialization {

  const UINT32 := 0x1_0000_0000

  // ----- data -----

  datatype Ptr = Null | At(address: nat)

  /** A number, a structure with members of its own, or a pointer to an object. */
  datatype Value = Num(n: int) | Rec(fields: seq<Field>) | Ref(p: Ptr)

  /** What a member holds: one value, or the values of a vector or set in order of iteration. */
  datatype Field = Single(v: Value) | Many(vs: seq<Value>)

  datatype Obj = Obj(className: string, fields: seq<Field>)

  datatype Type = Number | Struct(members: seq<Member>) | Object

  /** A property: how a class writes and reads one of its members. A `write` with several arguments is a named
      structure of unnamed members. */
  datatype Member =
    | One(name: string, t: Type)
    | Vector(name: string, element: string, t: Type)
    | Set(name: string, element: string, t: Type)

  /** The format (with property names and braces or without), the members of each class, the order of set
      elements, and the objects to be written. */
  datatype Context = Context(named: bool, schema: map<string, seq<Member>>, less: (Value, Value) -> bool,
                             heap: map<nat, Obj>)
  {
    /** The objects have the members of their class; no class is called nullptr. */
    ghost predicate Valid() {
      && "nullptr" !in schema
      && forall a | a in heap ::
           heap[a].className in schema && FieldsOk(this, schema[heap[a].className], heap[a].fields)
    }
  }

  /** Without pointers. */
  predicate Plain(t: Type) {
    match t
    case Number => true
    case Struct(members) => forall i | 0 <= i < |members| :: Plain(members[i].t)
    case Object => false
  }

  ghost predicate ValueOk(c: Context, t: Type, v: Value)
    decreases v
  {
    match t
    case Number => v.Num?
    case Struct(members) => v.Rec? && FieldsOk(c, members, v.fields)
    case Object => v.Ref? && (v.p.At? ==> v.p.address in c.heap)
  }

  ghost predicate FieldOk(c: Context, m: Member, f: Field)
    decreases f
  {
    match m
    case One(_, t) => f.Single? && ValueOk(c, t, f.v)
    case Vector(_, _, t) => f.Many? && |f.vs| < UINT32 && ElementsOk(c, t, f.vs)
    case Set(_, _, t) => f.Many? && |f.vs| < UINT32 && ElementsOk(c, t, f.vs) && Plain(t) && Ordered(c, f.vs)
  }

  ghost predicate FieldsOk(c: Context, members: seq<Member>, fields: seq<Field>)
    decreases fields
  {
    |members| == |fields| && forall i | 0 <= i < |fields| :: FieldOk(c, members[i], fields[i])
  }

  ghost predicate ElementsOk(c: Context, t: Type, vs: seq<Value>)
    decreases vs
  {
    forall i | 0 <= i < |vs| :: ValueOk(c, t, vs[i])
  }

  predicate Ordered(c: Context, vs: seq<Value>) {
    forall i, j | 0 <= i < j < |vs| :: c.less(vs[i], vs[j])
  }

  // ----- output -----

  datatype Token = Name(s: string) | Int(n: int) | Id(id: nat) | Class(s: string) | Open | Close

  /** `objectIDMap` and the next object ID. */
  datatype Writer = Writer(ids: map<Ptr, nat>, next: nat)

  datatype Written = Written(tokens: seq<Token>, w: Writer)

  /** `writePropertyName`. The further arguments of a `write` have no name of their own: theirs is empty. */
  function NameTokens(c: Context, name: string): seq<Token> { if c.named && name != "" then [Name(name)] else [] }

  function OpenTokens(c: Context): seq<Token> { if c.named then [Open] else [] }

  function CloseTokens(c: Context): seq<Token> { if c.named then [Close] else [] }

  /** The objects not yet written. */
  function Pending(c: Context, w: Writer): set<nat> { set a | a in c.heap && At(a) !in w.ids }

  /** The writer after an object has been given the next ID. */
  function Assigned(p: Ptr, w: Writer): Writer { Writer(w.ids[p := w.next], w.next + 1) }

  lemma AssignedPending(c: Context, a: nat, w: Writer)
    requires a in c.heap && At(a) !in w.ids
    ensures |Pending(c, Assigned(At(a), w))| < |Pending(c, w)|
  {
    assert Pending(c, Assigned(At(a), w)) == Pending(c, w) - {a};
  }

  lemma FewerPending(c: Context, w: Writer, w': Writer)
    requires w.ids.Keys <= w'.ids.Keys
    ensures |Pending(c, w')| <= |Pending(c, w)|
  {
    SubsetSize(Pending(c, w'), Pending(c, w));
  }

  lemma {:induction false} SubsetSize<T>(a: set<T>, b: set<T>)
    requires a <= b
    ensures |a| <= |b|
  {
    if a != {} {
      var x :| x in a;
      SubsetSize(a - {x}, b - {x});
    }
  }

  ghost function WriteObject(c: Context, p: Ptr, w: Writer): (r: Written)
    requires c.Valid() && (p.At? ==> p.address in c.heap)
    ensures w.ids.Keys <= r.w.ids.Keys && |Pending(c, r.w)| <= |Pending(c, w)|
    decreases |Pending(c, w)|, 0
  {
    if p in w.ids then Written([Id(w.ids[p])], w)
    else if p.Null? then
      FewerPending(c, w, Assigned(p, w));
      Written([Id(w.next), Class("nullptr")], Assigned(p, w))
    else
      AssignedPending(c, p.address, w);
      var obj := c.heap[p.address];
      var body := WriteFields(c, c.schema[obj.className], obj.fields, Assigned(p, w));
      Written([Id(w.next), Class(obj.className)] + OpenTokens(c) + body.tokens + CloseTokens(c), body.w)
  }

  ghost function WriteValue(c: Context, t: Type, v: Value, w: Writer): (r: Written)
    requires c.Valid() && ValueOk(c, t, v)
    ensures w.ids.Keys <= r.w.ids.Keys && |Pending(c, r.w)| <= |Pending(c, w)|
    decreases |Pending(c, w)|, 1, v
  {
    match v
    case Num(n) => Written([Int(n)], w)
    case Rec(fields) => WriteFields(c, t.members, fields, w)
    case Ref(p) => WriteObject(c, p, w)
  }

  /** The elements of a vector or set, each under the same name. */
  ghost function WriteElements(c: Context, element: string, t: Type, vs: seq<Value>, w: Writer): (r: Written)
    requires c.Valid() && ElementsOk(c, t, vs)
    ensures w.ids.Keys <= r.w.ids.Keys && |Pending(c, r.w)| <= |Pending(c, w)|
    decreases |Pending(c, w)|, 1, vs
  {
    if vs == [] then Written([], w)
    else
      var front := WriteElements(c, element, t, vs[..|vs| - 1], w);
      var last := WriteValue(c, t, vs[|vs| - 1], front.w);
      Written(front.tokens + NameTokens(c, element) + last.tokens, last.w)
  }

  ghost function WriteField(c: Context, m: Member, f: Field, w: Writer): (r: Written)
    requires c.Valid() && FieldOk(c, m, f)
    ensures w.ids.Keys <= r.w.ids.Keys && |Pending(c, r.w)| <= |Pending(c, w)|
    decreases |Pending(c, w)|, 1, f
  {
    match f
    case Single(v) =>
      var one := WriteValue(c, m.t, v, w);
      Written(NameTokens(c, m.name) + one.tokens, one.w)
    case Many(vs) =>
      var all := WriteElements(c, m.element, m.t, vs, w);
      Written(NameTokens(c, m.name) + [Int(|vs|)] + all.tokens, all.w)
  }

  /** The members of a structure or an object. */
  ghost function WriteFields(c: Context, members: seq<Member>, fields: seq<Field>, w: Writer): (r: Written)
    requires c.Valid() && FieldsOk(c, members, fields)
    ensures w.ids.Keys <= r.w.ids.Keys && |Pending(c, r.w)| <= |Pending(c, w)|
    decreases |Pending(c, w)|, 1, fields
  {
    if fields == [] then Written([], w)
    else
      var n := |fields| - 1;
      var front := WriteFields(c, members[..n], fields[..n], w);
      var last := WriteField(c, members[n], fields[n], front.w);
      Written(front.tokens + last.tokens, last.w)
  }

  // ----- input -----

  /** The tokens left, `objectIDMap`, and the objects read so far. A new object is known by its ID. */
  datatype Reader = Reader(tokens: seq<Token>, known: map<nat, Ptr>, heap: map<nat, Obj>)

  /** Reading stops at the first token that does not fit. */
  datatype Result<T> = Failed | Got(value: T, r: Reader)

  /** `matchPropertyName`. */
  function Match(c: Context, name: string, r: Reader): (m: Result<bool>)
    ensures m.Got? ==> |m.r.tokens| <= |r.tokens|
  {
    if !c.named || name == "" then Got(true, r)
    else if r.tokens != [] && r.tokens[0] == Name(name) then Got(true, r.(tokens := r.tokens[1..]))
    else Failed
  }

  function Brace(c: Context, brace: Token, r: Reader): (m: Result<bool>)
    ensures m.Got? ==> |m.r.tokens| <= |r.tokens|
  {
    if !c.named then Got(true, r)
    else if r.tokens != [] && r.tokens[0] == brace then Got(true, r.(tokens := r.tokens[1..]))
    else Failed
  }

  function ReadInt(r: Reader): (m: Result<int>)
    ensures m.Got? ==> |m.r.tokens| < |r.tokens|
  {
    if r.tokens != [] && r.tokens[0].Int? then Got(r.tokens[0].n, r.(tokens := r.tokens[1..])) else Failed
  }

  /** Insertion into an ordered set. */
  function Insert(c: Context, vs: seq<Value>, v: Value): seq<Value> {
    if vs == [] || c.less(vs[|vs| - 1], v) then vs + [v]
    else if !c.less(v, vs[|vs| - 1]) then vs
    else Insert(c, vs[..|vs| - 1], v) + [vs[|vs| - 1]]
  }

  function ReadObject(c: Context, r: Reader): (m: Result<Value>)
    ensures m.Got? ==> |m.r.tokens| <= |r.tokens|
    decreases |r.tokens|, Object, 1, 0
  {
    if r.tokens == [] || !r.tokens[0].Id? then Failed
    else
      var id := r.tokens[0].id;
      if id in r.known then Got(Ref(r.known[id]), r.(tokens := r.tokens[1..]))
      else if |r.tokens| < 2 || !r.tokens[1].Class? then Failed
      else
        var className := r.tokens[1].s;
        if className == "nullptr" || className !in c.schema then
          Got(Ref(Null), Reader(r.tokens[2..], r.known[id := Null], r.heap))
        else
          var open := Brace(c, Open, Reader(r.tokens[2..], r.known[id := At(id)], r.heap));
          if open.Failed? then Failed
          else
            var body := ReadFields(c, c.schema[className], open.r);
            if body.Failed? then Failed
            else
              var close := Brace(c, Close, body.r);
              if close.Failed? then Failed
              else Got(Ref(At(id)), close.r.(heap := close.r.heap[id := Obj(className, body.value)]))
  }

  function ReadValue(c: Context, t: Type, r: Reader): (m: Result<Value>)
    ensures m.Got? ==> |m.r.tokens| <= |r.tokens|
    decreases |r.tokens|, t, 2, 0
  {
    match t
    case Number =>
      var n := ReadInt(r);
      if n.Failed? then Failed else Got(Num(n.value), n.r)
    case Struct(members) =>
      var fields := ReadFields(c, members, r);
      if fields.Failed? then Failed else Got(Rec(fields.value), fields.r)
    case Object => ReadObject(c, r)
  }

  /** The first n elements of a vector, or of a set into which they are inserted. */
  function ReadElements(c: Context, m: Member, n: nat, r: Reader): (e: Result<seq<Value>>)
    requires !m.One?
    ensures e.Got? ==> |e.r.tokens| <= |r.tokens|
    decreases |r.tokens|, m, 0, n
  {
    if n == 0 then Got([], r)
    else
      var front := ReadElements(c, m, n - 1, r);
      if front.Failed? then Failed
      else
        var name := Match(c, m.element, front.r);
        if name.Failed? then Failed
        else
          var last := ReadValue(c, m.t, name.r);
          if last.Failed? then Failed
          else Got(if m.Set? then Insert(c, front.value, last.value) else front.value + [last.value], last.r)
  }

  function ReadField(c: Context, m: Member, r: Reader): (f: Result<Field>)
    ensures f.Got? ==> |f.r.tokens| <= |r.tokens|
    decreases |r.tokens|, m, 1, 0
  {
    var name := Match(c, m.name, r);
    if name.Failed? then Failed
    else if m.One? then
      var one := ReadValue(c, m.t, name.r);
      if one.Failed? then Failed else Got(Single(one.value), one.r)
    else
      var count := ReadInt(name.r);
      if count.Failed? || count.value < 0 then Failed
      else
        var all := ReadElements(c, m, count.value, count.r);
        if all.Failed? then Failed else Got(Many(all.value), all.r)
  }

  function ReadFields(c: Context, members: seq<Member>, r: Reader): (f: Result<seq<Field>>)
    ensures f.Got? ==> |f.r.tokens| <= |r.tokens|
    decreases |r.tokens|, members, 0, 0
  {
    if members == [] then Got([], r)
    else
      var n := |members| - 1;
      var front := ReadFields(c, members[..n], r);
      if front.Failed? then Failed
      else
        var last := ReadField(c, members[n], front.r);
        if last.Failed? then Failed else Got(front.value + [last.value], last.r)
  }
}

/** The output and input objects that write and read the tokens. */
module SerializationStreams {
  import opened Serialization
  import opened SerializationRoundTrip

  lemma Appended(before: seq<Token>, a: seq<Token>, b: seq<Token>, c: seq<Token>)
    ensures before + a + b + c == before + (a + b + c)
  {
  }

  lemma ObjectTokens(c: Context, a: nat, w: Writer, before: seq<Token>)
    requires c.Valid() && a in c.heap && At(a) !in w.ids
    ensures var obj, all := c.heap[a], WriteObject(c, At(a), w);
      var body := WriteFields(c, c.schema[obj.className], obj.fields, Assigned(At(a), w));
      before + [Id(w.next), Class(obj.className)] + OpenTokens(c) + body.tokens + CloseTokens(c) == before + all.tokens
      && body.w == all.w
  {
    hide WriteFields, OpenTokens, CloseTokens;
    var obj := c.heap[a];
    var head, body := [Id(w.next), Class(obj.className)],
                      WriteFields(c, c.schema[obj.className], obj.fields, Assigned(At(a), w)).tokens;
    Appended(before, head, OpenTokens(c), body);
    Appended([], before, head + OpenTokens(c) + body, CloseTokens(c));
  }

  lemma OneMoreElement(c: Context, element: string, t: Type, vs: seq<Value>, i: nat, w: Writer, before: seq<Token>)
    requires c.Valid() && ElementsOk(c, t, vs) && i < |vs|
    ensures var front := WriteElements(c, element, t, vs[..i], w);
      var last := WriteValue(c, t, vs[i], front.w);
      var all := WriteElements(c, element, t, vs[..i + 1], w);
      before + front.tokens + NameTokens(c, element) + last.tokens == before + all.tokens && last.w == all.w
  {
    hide WriteValue, NameTokens;
    assert vs[..i + 1][..i] == vs[..i];
    var front := WriteElements(c, element, t, vs[..i], w);
    Appended(before, front.tokens, NameTokens(c, element), WriteValue(c, t, vs[i], front.w).tokens);
  }

  lemma OneMoreField(c: Context, members: seq<Member>, fields: seq<Field>, i: nat, w: Writer, before: seq<Token>)
    requires c.Valid() && FieldsOk(c, members, fields) && i < |fields|
    ensures var front := WriteFields(c, members[..i], fields[..i], w);
      var last := WriteField(c, members[i], fields[i], front.w);
      var all := WriteFields(c, members[..i + 1], fields[..i + 1], w);
      before + front.tokens + last.tokens == before + all.tokens && last.w == all.w
  {
    hide WriteField;
    assert fields[..i + 1][..i] == fields[..i] && members[..i + 1][..i] == members[..i];
    var front := WriteFields(c, members[..i], fields[..i], w);
    Appended(before, front.tokens, WriteField(c, members[i], fields[i], front.w).tokens, []);
  }

  class Output {
    const context: Context
    var tokens: seq<Token>
    var objectIDMap: map<Ptr, nat>
    var objectID: nat

    constructor (c: Context)
      ensures context == c && tokens == [] && Ids() == Writer(map[Null := 0], 1)
    {
      context := c;
      tokens := [];
      objectIDMap := map[Null := 0];
      objectID := 1;
    }

    function Ids(): Writer
      reads this
    {
      Writer(objectIDMap, objectID)
    }

    method WritePropertyName(name: string)
      modifies this`tokens
      ensures tokens == old(tokens) + NameTokens(context, name)
    {
      if context.named && name != "" { tokens := tokens + [Name(name)]; }
    }

    /** `write` of an object: its ID alone if it was written before, all of it otherwise. */
    method WriteObject(p: Ptr)
      requires context.Valid() && (p.At? ==> p.address in context.heap)
      modifies this
      ensures var r := Serialization.WriteObject(context, p, old(Ids())); tokens == old(tokens) + r.tokens && Ids() == r.w
      decreases |Pending(context, Ids())|, 0
    {
      if p in objectIDMap {
        tokens := tokens + [Id(objectIDMap[p])];
        return;
      }
      var id := objectID;
      ghost var w, before := Ids(), tokens;
      objectID := objectID + 1;
      objectIDMap := objectIDMap[p := id];
      if p.At? {
        hide Serialization.WriteFields, Serialization.WriteObject, OpenTokens, CloseTokens, Pending;
        AssignedPending(context, p.address, w);
        var obj := context.heap[p.address];
        ghost var body := Serialization.WriteFields(context, context.schema[obj.className], obj.fields, Assigned(p, w));
        tokens := tokens + [Id(id), Class(obj.className)];
        WriteBrace(true);
        WriteFields(context.schema[obj.className], obj.fields);
        WriteBrace(false);
        assert tokens == before + [Id(id), Class(obj.className)] + OpenTokens(context) + body.tokens + CloseTokens(context);
        ObjectTokens(context, p.address, w, before);
      } else {
        tokens := tokens + [Id(id), Class("nullptr")];
      }
    }

    /** A brace around the members of an object, if the format has them. */
    method WriteBrace(open: bool)
      modifies this`tokens
      ensures tokens == old(tokens) + if open then OpenTokens(context) else CloseTokens(context)
    {
      if context.named { tokens := tokens + [if open then Open else Close]; }
    }

    method WriteValue(t: Type, v: Value)
      requires context.Valid() && ValueOk(context, t, v)
      modifies this
      ensures var r := Serialization.WriteValue(context, t, v, old(Ids())); tokens == old(tokens) + r.tokens && Ids() == r.w
      decreases |Pending(context, Ids())|, 1, v, 0
    {
      match v
      case Num(n) => tokens := tokens + [Int(n)];
      case Rec(fields) => WriteFields(t.members, fields);
      case Ref(p) => WriteObject(p);
    }

    /** The first i elements have been written since the output was `before` and the IDs were w. */
    ghost predicate ElementsWritten(element: string, t: Type, vs: seq<Value>, i: nat, before: seq<Token>, w: Writer)
      requires context.Valid() && ElementsOk(context, t, vs) && i <= |vs|
      reads this
    {
      var r := Serialization.WriteElements(context, element, t, vs[..i], w);
      tokens == before + r.tokens && Ids() == r.w
    }

    /** `write` of one element under the name that all of them have. */
    method WriteElement(element: string, t: Type, vs: seq<Value>, i: nat, ghost before: seq<Token>, ghost w: Writer)
      requires context.Valid() && ElementsOk(context, t, vs) && i < |vs|
      requires ElementsWritten(element, t, vs, i, before, w)
      modifies this
      ensures ElementsWritten(element, t, vs, i + 1, before, w)
      decreases |Pending(context, Ids())|, 1, vs[i], 1
    {
      hide Serialization.WriteElements, Serialization.WriteValue, NameTokens, Pending;
      ghost var front := Serialization.WriteElements(context, element, t, vs[..i], w);
      ghost var last := Serialization.WriteValue(context, t, vs[i], front.w);
      WritePropertyName(element);
      WriteValue(t, vs[i]);
      assert tokens == before + front.tokens + NameTokens(context, element) + last.tokens;
      OneMoreElement(context, element, t, vs, i, w, before);
    }

    /** The loop of `writeValues` and `writeObjects`. */
    method WriteElements(element: string, t: Type, vs: seq<Value>)
      requires context.Valid() && ElementsOk(context, t, vs)
      modifies this
      ensures var r := Serialization.WriteElements(context, element, t, vs, old(Ids()));
        tokens == old(tokens) + r.tokens && Ids() == r.w
      decreases |Pending(context, Ids())|, 1, vs
    {
      for i := 0 to |vs|
        invariant ElementsWritten(element, t, vs, i, old(tokens), old(Ids()))
      {
        hide Serialization.WriteElements;
        WriteElement(element, t, vs, i, old(tokens), old(Ids()));
      }
      assert vs[..|vs|] == vs;
    }

    /** `write` of a named value, `writeValues` of a vector or a set, `writeObjects`. The number of elements is
        cast to 32 bits. */
    method WriteField(m: Member, f: Field)
      requires context.Valid() && FieldOk(context, m, f)
      modifies this
      ensures var r := Serialization.WriteField(context, m, f, old(Ids())); tokens == old(tokens) + r.tokens && Ids() == r.w
      decreases |Pending(context, Ids())|, 1, f
    {
      hide Serialization.WriteElements, Serialization.WriteValue, NameTokens, Pending;
      WritePropertyName(m.name);
      match f
      case Single(v) =>
        Appended(old(tokens), NameTokens(context, m.name), Serialization.WriteValue(context, m.t, v, Ids()).tokens, []);
        WriteValue(m.t, v);
      case Many(vs) =>
        var numElements := |vs| % UINT32;
        Appended(old(tokens), NameTokens(context, m.name), [Int(numElements)],
                 Serialization.WriteElements(context, m.element, m.t, vs, Ids()).tokens);
        tokens := tokens + [Int(numElements)];
        WriteElements(m.element, m.t, vs);
    }

    method WriteFields(members: seq<Member>, fields: seq<Field>)
      requires context.Valid() && FieldsOk(context, members, fields)
      modifies this
      ensures var r := Serialization.WriteFields(context, members, fields, old(Ids())); tokens == old(tokens) + r.tokens && Ids() == r.w
      decreases |Pending(context, Ids())|, 1, fields
    {
      ghost var w, before := Ids(), tokens;
      assert Serialization.WriteFields(context, members[..0], fields[..0], w) == Written([], w);
      hide Serialization.WriteFields, Serialization.WriteField, Pending;
      for i := 0 to |fields|
        invariant var r := Serialization.WriteFields(context, members[..i], fields[..i], w);
          tokens == before + r.tokens && Ids() == r.w
      {
        ghost var front := Serialization.WriteFields(context, members[..i], fields[..i], w);
        ghost var last := Serialization.WriteField(context, members[i], fields[i], front.w);
        WriteField(members[i], fields[i]);
        assert tokens == before + front.tokens + last.tokens;
        OneMoreField(context, members, fields, i, w, before);
      }
      assert fields[..|fields|] == fields && members[..|members|] == members;
    }
  }

  class Input {
    const context: Context
    var tokens: seq<Token>
    var objectIDMap: map<nat, Ptr>
    var objects: map<nat, Obj>  // the objects created, by ID

    constructor (c: Context, ts: seq<Token>)
      ensures context == c && State() == Reader(ts, map[0 := Null], map[])
    {
      context := c;
      tokens := ts;
      objectIDMap := map[0 := Null];
      objects := map[];
    }

    function State(): Reader
      reads this
    {
      Reader(tokens, objectIDMap, objects)
    }

    /** The outcome of a call, as the result of the specification. */
    function Outcome<T>(ok: bool, value: T): Result<T>
      reads this
    {
      if ok then Got(value, State()) else Failed
    }

    /** Takes the next token if it is the expected one. */
    method Take(expected: Token) returns (ok: bool)
      modifies this`tokens
      ensures ok <==> old(tokens) != [] && old(tokens)[0] == expected
      ensures tokens == if ok then old(tokens)[1..] else old(tokens)
    {
      ok := tokens != [] && tokens[0] == expected;
      if ok { tokens := tokens[1..]; }
    }

    method MatchPropertyName(name: string) returns (ok: bool)
      modifies this`tokens
      ensures Outcome(ok, true) == Match(context, name, old(State())) && |tokens| <= |old(tokens)|
    {
      ok := true;
      if context.named && name != "" { ok := Take(Name(name)); }
    }

    method MatchBrace(brace: Token) returns (ok: bool)
      modifies this`tokens
      ensures Outcome(ok, true) == Brace(context, brace, old(State())) && |tokens| <= |old(tokens)|
    {
      ok := true;
      if context.named { ok := Take(brace); }
    }

    method ReadInt() returns (ok: bool, n: int)
      modifies this`tokens
      ensures Outcome(ok, n) == Serialization.ReadInt(old(State()))
      ensures |tokens| <= |old(tokens)| && (ok ==> |tokens| < |old(tokens)|)
    {
      ok, n := false, 0;
      if tokens != [] && tokens[0].Int? {
        ok, n, tokens := true, tokens[0].n, tokens[1..];
      }
    }

    /** `read` of an object: one that is known by its ID, or a new one with its members. */
    method ReadObject() returns (ok: bool, v: Value)
      modifies this
      ensures Outcome(ok, v) == Serialization.ReadObject(context, old(State()))
      ensures |tokens| <= |old(tokens)|
      decreases |tokens|, Object, 1, 0
    {
      ok, v := false, Ref(Null);
      if tokens == [] || !tokens[0].Id? { return; }
      var id := tokens[0].id;
      if id in objectIDMap {
        ok, v, tokens := true, Ref(objectIDMap[id]), tokens[1..];
        return;
      }
      if |tokens| < 2 || !tokens[1].Class? { return; }
      var className := tokens[1].s;
      if className == "nullptr" || className !in context.schema {
        ok, v, tokens, objectIDMap := true, Ref(Null), tokens[2..], objectIDMap[id := Null];
        return;
      }
      hide Serialization.ReadFields, Brace;
      tokens, objectIDMap := tokens[2..], objectIDMap[id := At(id)];
      var matched := MatchBrace(Open);
      if !matched { return; }
      var fields;
      matched, fields := ReadFields(context.schema[className]);
      if !matched { return; }
      matched := MatchBrace(Close);
      if !matched { return; }
      objects := objects[id := Obj(className, fields)];
      ok, v := true, Ref(At(id));
    }

    method ReadValue(t: Type) returns (ok: bool, v: Value)
      modifies this
      ensures Outcome(ok, v) == Serialization.ReadValue(context, t, old(State()))
      ensures |tokens| <= |old(tokens)|
      decreases |tokens|, t, 2, 0
    {
      match t
      case Number =>
        var n;
        ok, n := ReadInt();
        v := Num(n);
      case Struct(members) =>
        var fields;
        ok, fields := ReadFields(members);
        v := Rec(fields);
      case Object => ok, v := ReadObject();
    }

    /** The loop of `readValues` and `readObjects`: elements are appended to a vector, inserted into a set. */
    method ReadElements(m: Member, n: nat) returns (ok: bool, vs: seq<Value>)
      requires !m.One?
      modifies this
      ensures Outcome(ok, vs) == Serialization.ReadElements(context, m, n, old(State()))
      ensures |tokens| <= |old(tokens)|
      decreases |tokens|, m, 0, n
    {
      ok, vs := true, [];
      for i := 0 to n
        invariant Outcome(ok, vs) == Serialization.ReadElements(context, m, i, old(State()))
        invariant |tokens| <= |old(tokens)|
      {
        hide Serialization.ReadValue, Match, Insert;
        if ok {
          var v;
          ok := MatchPropertyName(m.element);
          if ok { ok, v := ReadValue(m.t); }
          if ok { vs := if m.Set? then Insert(context, vs, v) else vs + [v]; }
        }
      }
    }

    method ReadField(m: Member) returns (ok: bool, f: Field)
      modifies this
      ensures Outcome(ok, f) == Serialization.ReadField(context, m, old(State()))
      ensures |tokens| <= |old(tokens)|
      decreases |tokens|, m, 1, 0
    {
      f := Many([]);
      hide Serialization.ReadValue, Serialization.ReadElements, Match;
      ok := MatchPropertyName(m.name);
      if !ok { return; }
      if m.One? {
        var v;
        ok, v := ReadValue(m.t);
        f := Single(v);
      } else {
        var count, vs;
        ok, count := ReadInt();
        if !ok || count < 0 { return false, f; }
        ok, vs := ReadElements(m, count);
        f := Many(vs);
      }
    }

    method ReadFields(members: seq<Member>) returns (ok: bool, fields: seq<Field>)
      modifies this
      ensures Outcome(ok, fields) == Serialization.ReadFields(context, members, old(State()))
      ensures |tokens| <= |old(tokens)|
      decreases |tokens|, members, 0, 0
    {
      ok, fields := true, [];
      for i := 0 to |members|
        invariant Outcome(ok, fields) == Serialization.ReadFields(context, members[..i], old(State()))
        invariant |tokens| <= |old(tokens)|
      {
        hide Serialization.ReadField;
        assert members[..i + 1][..i] == members[..i];
        if ok {
          var f;
          ok, f := ReadField(members[i]);
          if ok { fields := fields + [f]; }
        }
      }
      assert members[..|members|] == members;
    }
  }

  /** Writing an object and reading what was written gives an isomorphic graph and leaves nothing. */
  method WriteAndRead(c: Context, root: Ptr) returns (output: Output, input: Input, ok: bool, v: Value)
    requires c.Valid() && (root.At? ==> root.address in c.heap)
    ensures ok && input.tokens == [] && v == Ref(ImagePtr(root, output.objectIDMap))
    ensures root in output.objectIDMap && Isomorphic(c, output.objectIDMap, input.objects)
  {
    hide Serialization.WriteObject, Serialization.ReadObject, Isomorphic;
    GraphBack(c, root, []);
    output := new Output(c);
    output.WriteObject(root);
    ghost var written := Serialization.WriteObject(c, root, START);
    assert [] + written.tokens == written.tokens == written.tokens + [];
    input := new Input(c, output.tokens);
    ok, v := input.ReadObject();
  }
}

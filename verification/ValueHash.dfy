/** What is fed to the hasher tells unequal values apart (crates/core/src/interpreter/value.rs). */
module ValueHash {
  import opened Wrappers
  import opened Values
  import opened ValueEquality

  /** What a variant of an enum declares: no payload, so many values, or named ones. */
  datatype Shape = Bare | Positional(count: nat) | Fields

  type Shapes = map<(string, string), Shape>

  /** Every enum value has the payload that its variant declares. */
  predicate Shaped(shapes: Shapes, v: Value)
    decreases v
  {
    match v
    case Tuple(items) => forall i :: 0 <= i < |items| ==> Shaped(shapes, items[i])
    case Struct(_, fields, _, _) => forall i :: 0 <= i < |fields| ==> Shaped(shapes, fields[i].value)
    case Enum(t, variant, p) => (t, variant) in shapes && PayloadShaped(shapes, p, shapes[(t, variant)])
    case Unique(inner) => Shaped(shapes, inner)
    case _ => true
  }

  predicate PayloadShaped(shapes: Shapes, p: Payload, s: Shape)
    decreases p
  {
    match p
    case NoPayload => s == Bare
    case Items(items) => s == Positional(|items|) && forall i :: 0 <= i < |items| ==> Shaped(shapes, items[i])
    case Named(fields) => s == Fields && forall i :: 0 <= i < |fields| ==> Shaped(shapes, fields[i].value)
  }

  /** Where equality and hashing are derived together. */
  predicate Together(w: World) {
    Accepted(w.decls) && HashDerived(w.decls)
  }

  lemma Cut(s: seq<Token>, t: seq<Token>, x: seq<Token>, y: seq<Token>)
    requires s + x == t + y && |s| == |t|
    ensures s == t && x == y
  {
    assert (s + x)[..|s|] == s && (t + y)[..|t|] == t;
    assert (s + x)[|s|..] == x && (t + y)[|t|..] == y;
  }

  /** The same, with a part between. */
  lemma CutMiddle(s: seq<Token>, t: seq<Token>, i: seq<Token>, j: seq<Token>, x: seq<Token>, y: seq<Token>)
    requires s + i + x == t + j + y && |s| == |t|
    ensures s == t && i + x == j + y
  {
    assert s + i + x == s + (i + x) && t + j + y == t + (j + y);
    Cut(s, t, i + x, j + y);
  }

  lemma TagFirst(a: Value, b: Value, x: seq<Token>, y: seq<Token>)
    requires Tokens(a) + x == Tokens(b) + y
    ensures Variant(a) == Variant(b)
  {
    hide Variant;
    assert (Tokens(a) + x)[0] == Tag(Variant(a)) && (Tokens(b) + y)[0] == Tag(Variant(b));
  }

  predicate Nested(v: Value) {
    v.Tuple? || v.Struct? || v.Enum? || v.Unique?
  }

  lemma SameKind(a: Value, b: Value)
    requires Variant(a) == Variant(b)
    ensures Nested(a) <==> Nested(b)
    ensures (a.Tuple? <==> b.Tuple?) && (a.Struct? <==> b.Struct?) && (a.Enum? <==> b.Enum?) && (a.Unique? <==> b.Unique?)
  {
  }

  lemma AtomLength(a: Value, b: Value)
    requires Variant(a) == Variant(b) && !Nested(a)
    ensures |Tokens(a)| == |Tokens(b)|
  {
  }

  lemma AtomTells(a: Value, b: Value)
    requires Tokens(a) == Tokens(b) && Variant(a) == Variant(b) && !Nested(a)
    ensures Of(a) == Of(b)
  {
    assert |Tokens(a)| > 1 ==> Tokens(a)[1] == Tokens(b)[1];
    assert |Tokens(a)| > 2 ==> Tokens(a)[2] == Tokens(b)[2];
  }

  /** Two token lists that begin with what two values feed show whether these are the same, and go on alike. */
  lemma {:induction false} Prefix(w: World, shapes: Shapes, a: Value, b: Value, x: seq<Token>, y: seq<Token>)
    requires Together(w) && Known(w, a) && Known(w, b) && Shaped(shapes, a) && Shaped(shapes, b)
    requires Tokens(a) + x == Tokens(b) + y
    ensures Of(a) == Of(b) && x == y
    decreases a, 3
  {
    TagFirst(a, b, x, y);
    SameKind(a, b);
    if a.Tuple? {
      TuplePrefix(w, shapes, a, b, x, y);
    } else if a.Struct? {
      StructPrefix(w, shapes, a, b, x, y);
    } else if a.Enum? {
      EnumPrefix(w, shapes, a, b, x, y);
    } else if a.Unique? {
      CutMiddle([Tag(Variant(a))], [Tag(Variant(b))], Tokens(a.inner), Tokens(b.inner), x, y);
      Prefix(w, shapes, a.inner, b.inner, x, y);
    } else {
      AtomLength(a, b);
      Cut(Tokens(a), Tokens(b), x, y);
      AtomTells(a, b);
    }
  }

  lemma {:induction false} TuplePrefix(w: World, shapes: Shapes, a: Value, b: Value, x: seq<Token>, y: seq<Token>)
    requires a.Tuple? && b.Tuple? && Together(w) && Known(w, a) && Known(w, b) && Shaped(shapes, a) && Shaped(shapes, b)
    requires Tokens(a) + x == Tokens(b) + y
    ensures Of(a) == Of(b) && x == y
    decreases a, 2
  {
    var s, t := [Tag(7), IntT(|a.items|)], [Tag(7), IntT(|b.items|)];
    assert Tokens(a) == s + ItemTokens(a.items) && Tokens(b) == t + ItemTokens(b.items);
    CutMiddle(s, t, ItemTokens(a.items), ItemTokens(b.items), x, y);
    assert s[1] == t[1];
    ItemsPrefix(w, shapes, a.items, b.items, x, y);
  }

  lemma {:induction false} ItemsPrefix(w: World, shapes: Shapes, a: seq<Value>, b: seq<Value>, x: seq<Token>, y: seq<Token>)
    requires Together(w) && |a| == |b| && ItemTokens(a) + x == ItemTokens(b) + y
    requires forall i :: 0 <= i < |a| ==> Known(w, a[i]) && Shaped(shapes, a[i]) && Known(w, b[i]) && Shaped(shapes, b[i])
    ensures OfItems(a) == OfItems(b) && x == y
    decreases a, 1
  {
    hide Known, Shaped, Tokens, Of;
    if a == [] {
      assert ItemTokens(a) + x == x && ItemTokens(b) + y == y;
    } else {
      var i, j := ItemTokens(a[1..]), ItemTokens(b[1..]);
      assert Tokens(a[0]) + i + x == Tokens(a[0]) + (i + x) && Tokens(b[0]) + j + y == Tokens(b[0]) + (j + y);
      Prefix(w, shapes, a[0], b[0], i + x, j + y);
      ItemsPrefix(w, shapes, a[1..], b[1..], x, y);
    }
  }

  lemma {:induction false} StructPrefix(w: World, shapes: Shapes, a: Value, b: Value, x: seq<Token>, y: seq<Token>)
    requires a.Struct? && b.Struct? && Together(w) && Known(w, a) && Known(w, b) && Shaped(shapes, a) && Shaped(shapes, b)
    requires Tokens(a) + x == Tokens(b) + y
    ensures Of(a) == Of(b) && x == y
    decreases a, 2
  {
    StructTokens(w, a);
    StructTokens(w, b);
    var s, t := StructHead(a), StructHead(b);
    var i, j := StructTail(a), StructTail(b);
    CutMiddle(s, t, i, j, x, y);
    assert s[1] == t[1];
    assert a.derives.hash <==> b.derives.hash;
    if a.derives.hash {
      assert a.typeName == b.typeName && a.derives == b.derives;
      assert a.typeName != ANON;
      FieldsPrefix(w, shapes, a, b, a.derives.order, x, y);
      FieldsAll(a.fields, b.fields, a.derives.order);
    } else {
      assert i + x == x && j + y == y;
    }
  }

  function StructHead(v: Value): (r: seq<Token>)
    requires v.Struct?
    ensures |r| == 2
  {
    [Tag(8), if v.derives.hash then StrT(v.typeName) else CellT(v.cell)]
  }

  function StructTail(v: Value): seq<Token>
    requires v.Struct?
  {
    if v.derives.hash then FieldTokens(v, v.derives.order) else []
  }

  lemma StructTokens(w: World, v: Value)
    requires v.Struct? && Together(w) && Known(w, v)
    ensures Tokens(v) == StructHead(v) + StructTail(v) && v.derives.eq == v.derives.hash
    ensures v.derives.hash ==> v.typeName != ANON
    ensures v.typeName in w.decls && w.decls[v.typeName] == v.derives
  {
    hide FieldsKnown, FieldTokens;
  }

  /** The field that both structs have is the same one. */
  predicate SameField(a: Fields, b: Fields, name: string) {
    var u, v := Get(a, name), Get(b, name);
    u.Some? && v.Some? && Of(u.value) == Of(v.value)
  }

  lemma {:induction false} FieldsPrefix(w: World, shapes: Shapes, a: Value, b: Value, order: seq<string>, x: seq<Token>, y: seq<Token>)
    requires a.Struct? && b.Struct? && Together(w) && Known(w, a) && Known(w, b) && Shaped(shapes, a) && Shaped(shapes, b)
    requires forall i :: 0 <= i < |order| ==> order[i] in Names(a.fields) && order[i] in Names(b.fields)
    requires FieldTokens(a, order) + x == FieldTokens(b, order) + y
    ensures (forall i :: 0 <= i < |order| ==> SameField(a.fields, b.fields, order[i])) && x == y
    decreases a, 1, |order|
  {
    hide Known, Shaped, Tokens, Of, Names, Accepted, HashDerived;
    if order == [] {
      assert FieldTokens(a, order) + x == x && FieldTokens(b, order) + y == y;
    } else {
      var others := order[1..];
      var u := FieldOf(w, shapes, a, order[0]);
      var v := FieldOf(w, shapes, b, order[0]);
      FieldCut(a, b, order, u, v, x, y);
      hide FieldTokens;
      Prefix(w, shapes, u, v, FieldTokens(a, others) + x, FieldTokens(b, others) + y);
      FieldsPrefix(w, shapes, a, b, others, x, y);
      forall k | 0 <= k < |order|
        ensures SameField(a.fields, b.fields, order[k])
      {
        assert k > 0 ==> order[k] == others[k - 1];
      }
    }
  }

  /** What is fed for the first field, and for the others. */
  lemma FieldCut(a: Value, b: Value, order: seq<string>, u: Value, v: Value, x: seq<Token>, y: seq<Token>)
    requires a.Struct? && b.Struct? && order != [] && Get(a.fields, order[0]) == Some(u) && Get(b.fields, order[0]) == Some(v)
    requires FieldTokens(a, order) + x == FieldTokens(b, order) + y
    ensures Tokens(u) + (FieldTokens(a, order[1..]) + x) == Tokens(v) + (FieldTokens(b, order[1..]) + y)
  {
    var n, i, j := [StrT(order[0])], FieldTokens(a, order[1..]), FieldTokens(b, order[1..]);
    assert FieldTokens(a, order) == n + Tokens(u) + i && FieldTokens(b, order) == n + Tokens(v) + j;
    hide FieldTokens, Tokens;
    Grouped(n, Tokens(u), i, x);
    Grouped(n, Tokens(v), j, y);
    Cut(n, n, Tokens(u) + (i + x), Tokens(v) + (j + y));
  }

  lemma Grouped(n: seq<Token>, s: seq<Token>, i: seq<Token>, x: seq<Token>)
    ensures n + s + i + x == n + (s + (i + x))
  {
  }

  lemma FieldOf(w: World, shapes: Shapes, a: Value, name: string) returns (u: Value)
    requires a.Struct? && Known(w, a) && Shaped(shapes, a) && name in Names(a.fields)
    ensures Get(a.fields, name) == Some(u) && Known(w, u) && Shaped(shapes, u) && (a decreases to u)
  {
    var g := Get(a.fields, name);
    var k :| 0 <= k < |a.fields| && a.fields[k].name == name;
    u := g.value;
    var i :| 0 <= i < |a.fields| && a.fields[i] == Field(name, u);
  }

  lemma FieldsAll(a: Fields, b: Fields, order: seq<string>)
    requires DistinctNames(a) && DistinctNames(b) && Names(a) == OrderNames(order) == Names(b)
    requires forall i :: 0 <= i < |order| ==> SameField(a, b, order[i])
    ensures OfFields(a) == OfFields(b)
  {
    KeysAre(a);
    KeysAre(b);
    forall n | n in OfFields(a)
      ensures OfFields(a)[n] == OfFields(b)[n]
    {
      assert n in OrderNames(order);
      var i :| 0 <= i < |order| && order[i] == n;
      assert SameField(a, b, order[i]);
      OfField(a, n);
      OfField(b, n);
    }
  }

  lemma {:induction false} EnumPrefix(w: World, shapes: Shapes, a: Value, b: Value, x: seq<Token>, y: seq<Token>)
    requires a.Enum? && b.Enum? && Together(w) && Known(w, a) && Known(w, b) && Shaped(shapes, a) && Shaped(shapes, b)
    requires Tokens(a) + x == Tokens(b) + y
    ensures Of(a) == Of(b) && x == y
    decreases a, 2
  {
    var s, t := [Tag(9), StrT(a.typeName), StrT(a.variant)], [Tag(9), StrT(b.typeName), StrT(b.variant)];
    var i, j := PayloadTokens(a.payload), PayloadTokens(b.payload);
    assert Tokens(a) == s + i && Tokens(b) == t + j;
    CutMiddle(s, t, i, j, x, y);
    assert s[1] == t[1] && s[2] == t[2];
    PayloadPrefix(w, shapes, a.payload, b.payload, shapes[(a.typeName, a.variant)], x, y);
  }

  lemma {:induction false} PayloadPrefix(w: World, shapes: Shapes, p: Payload, q: Payload, s: Shape, x: seq<Token>, y: seq<Token>)
    requires Together(w) && PayloadKnown(w, p) && PayloadKnown(w, q) && PayloadShaped(shapes, p, s) && PayloadShaped(shapes, q, s)
    requires PayloadTokens(p) + x == PayloadTokens(q) + y
    ensures OfPayload(p) == OfPayload(q) && x == y
    decreases p, 2
  {
    match (p, q) {
      case (NoPayload, NoPayload) => Cut([], [], x, y);
      case (Items(i), Items(j)) => ItemsPrefix(w, shapes, i, j, x, y);
      case (Named(f), Named(g)) =>
        Cut([SortedT(NamedTokens(f))], [SortedT(NamedTokens(g))], x, y);
        assert [SortedT(NamedTokens(f))][0] == [SortedT(NamedTokens(g))][0];
        NamedTell(w, shapes, f, g);
    }
  }

  lemma {:induction false} NamedTell(w: World, shapes: Shapes, f: Fields, g: Fields)
    requires Together(w) && FieldsKnown(w, f) && FieldsKnown(w, g) && NamedTokens(f) == NamedTokens(g)
    requires (forall i :: 0 <= i < |f| ==> Shaped(shapes, f[i].value)) && forall i :: 0 <= i < |g| ==> Shaped(shapes, g[i].value)
    ensures OfFields(f) == OfFields(g)
    decreases f, 1
  {
    hide Known, Shaped, Tokens, Of, OfFields, NamedTokens;
    forall n
      ensures n in OfFields(f) <==> n in OfFields(g)
      ensures n in OfFields(f) ==> OfFields(f)[n] == OfFields(g)[n]
    {
      NamedAt(f, n);
      NamedAt(g, n);
      OfField(f, n);
      OfField(g, n);
      var u, v := Get(f, n), Get(g, n);
      if u.Some? {
        var i :| 0 <= i < |f| && f[i] == Field(n, u.value);
        var j :| 0 <= j < |g| && g[j] == Field(n, v.value);
        assert Tokens(u.value) + [] == Tokens(v.value) + [];
        Prefix(w, shapes, f[i].value, g[j].value, [], []);
      }
    }
  }

  /** Where every type that derives one of equality and hashing derives both, two values without a NaN feed the same to
      the hasher exactly if they are equal. */
  lemma HashTells(w: World, shapes: Shapes, a: Value, b: Value)
    requires Together(w) && Known(w, a) && Known(w, b) && Shaped(shapes, a) && Shaped(shapes, b) && !HasNaN(a)
    ensures Tokens(a) == Tokens(b) <==> Equals(a, b)
  {
    EqualsIs(w, a, b);
    if Equals(a, b) {
      EqualHash(w, a, b);
    }
    if Tokens(a) == Tokens(b) {
      assert Tokens(a) + [] == Tokens(b) + [];
      Prefix(w, shapes, a, b, [], []);
    }
  }
}

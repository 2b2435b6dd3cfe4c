/** Runtime values of the interpreter: equality, hashing and ordering (crates/core/src/interpreter/value.rs). */
module Values {
  import opened Wrappers

  // ---------------------------------------------------------------- values

  /** The address of reference-counted contents. */
  type Cell = nat

  datatype Kind = I64 | I8 | I16 | I32 | U8 | U16 | U32 | U64

  /** A floating-point number: `key` orders all numbers, infinities included, and 0 is positive zero. */
  datatype Num = NaN(bits: nat) | NegZero | Ordered(key: int)

  /** What the declaration of a struct type derives, and its fields in order. */
  datatype Derives = Derives(eq: bool, ord: bool, hash: bool, order: seq<string>)

  datatype ObjectKind = List | Dict | Queue | Stack | Pool | InlineList | Linqerizer

  /** A hash map of fields, as its entries in any order. */
  datatype Field = Field(name: string, value: Value)

  type Fields = seq<Field>

  datatype Value =
    | Null
    | Void
    | Bool(b: bool)
    | Integer(kind: Kind, n: int)
    | Float(f: Num)
    | Double(f: Num)
    | Char(c: char)
    | Str(s: string)
    | Tuple(items: seq<Value>)
    | Struct(typeName: string, fields: Fields, cell: Cell, derives: Derives)
    | Enum(typeName: string, variant: string, payload: Payload)
    | Function(id: nat)
    | Handle(index: nat, generation: nat)
    | Object(object: ObjectKind, cell: Cell)
    | Unique(inner: Value)
    | Shared(cell: Cell, inner: Value)
    | SyncShared(cell: Cell, inner: Value)

  datatype Payload = NoPayload | Items(items: seq<Value>) | Named(fields: Fields)

  // ---------------------------------------------------------------- equality

  function Rank(x: Num): int
    requires !x.NaN?
  {
    if x.NegZero? then 0 else x.key
  }

  predicate NumEq(a: Num, b: Num) {
    !a.NaN? && !b.NaN? && Rank(a) == Rank(b)
  }

  predicate AllEqual(a: seq<Value>, b: seq<Value>)
    decreases a
  {
    |a| == |b| && forall i :: 0 <= i < |a| ==> Equals(a[i], b[i])
  }

  /** The value of a field. */
  function Get(fields: Fields, name: string): (r: Option<Value>)
    ensures r.Some? ==> exists i :: 0 <= i < |fields| && fields[i] == Field(name, r.value)
    ensures r.None? ==> forall i :: 0 <= i < |fields| ==> fields[i].name != name
  {
    if fields == [] then None
    else if fields[0].name == name then Some(fields[0].value)
    else Get(fields[1..], name)
  }

  predicate FieldsEqual(a: Fields, b: Fields)
    decreases a
  {
    |a| == |b| && forall i :: 0 <= i < |a| ==> var v := Get(b, a[i].name); v.Some? && Equals(a[i].value, v.value)
  }

  /** `equals`: structural for values without an address of their own and for structs that derive it, else by address. */
  predicate Equals(a: Value, b: Value)
    decreases a
  {
    match (a, b)
    case (Null, Null) => true
    case (Void, Void) => true
    case (Bool(x), Bool(y)) => x == y
    case (Integer(j, x), Integer(k, y)) => j == k && x == y
    case (Float(x), Float(y)) => NumEq(x, y)
    case (Double(x), Double(y)) => NumEq(x, y)
    case (Char(x), Char(y)) => x == y
    case (Str(x), Str(y)) => x == y
    case (Tuple(x), Tuple(y)) => AllEqual(x, y)
    case (Struct(t, x, c, d), Struct(u, y, e, f)) =>
      if d.eq || f.eq then t == u && FieldsEqual(x, y) else c == e
    case (Enum(t, v, p), Enum(u, w, q)) => t == u && v == w && PayloadEqual(p, q)
    case (Function(x), Function(y)) => x == y
    case (Handle(i, g), Handle(j, h)) => i == j && g == h
    case (Object(j, c), Object(k, e)) => j == k && c == e
    case (Unique(x), Unique(y)) => Equals(x, y)
    case (Shared(c, _), Shared(e, _)) => c == e
    case (SyncShared(c, _), SyncShared(e, _)) => c == e
    case _ => false
  }

  predicate PayloadEqual(p: Payload, q: Payload)
    decreases p
  {
    match (p, q)
    case (NoPayload, NoPayload) => true
    case (Items(x), Items(y)) => AllEqual(x, y)
    case (Named(x), Named(y)) => FieldsEqual(x, y)
    case _ => false
  }

  // ---------------------------------------------------------------- hashing

  /** What a value feeds to the hasher. The fields of an enum variant are fed in the order of their names, so what is fed
      depends on the map of them only. */
  datatype Token =
    | Tag(index: nat)
    | BoolT(b: bool)
    | IntT(n: int)
    | NumT(x: Num)
    | CharT(c: char)
    | StrT(s: string)
    | CellT(cell: Cell)
    | SortedT(fields: map<string, seq<Token>>)

  /** The variant of a value. */
  function Variant(v: Value): nat {
    match v
    case Null => 0
    case Void => 1
    case Bool(_) => 2
    case Float(_) => 3
    case Double(_) => 4
    case Char(_) => 5
    case Str(_) => 6
    case Tuple(_) => 7
    case Struct(_, _, _, _) => 8
    case Enum(_, _, _) => 9
    case Function(_) => 10
    case Handle(_, _) => 11
    case Unique(_) => 12
    case Shared(_, _) => 13
    case SyncShared(_, _) => 14
    case Integer(kind, _) => (match kind case I64 => 15 case I8 => 16 case I16 => 17 case I32 => 18 case U8 => 19 case U16 => 20 case U32 => 21 case U64 => 22)
    case Object(o, _) => (match o case List => 23 case Dict => 24 case Queue => 25 case Stack => 26 case Pool => 27 case InlineList => 28 case Linqerizer => 29)
  }

  /** Negative zero is hashed as zero. */
  function Normal(x: Num): Num {
    if x.NegZero? then Ordered(0) else x
  }

  /** `hash_into`. */
  function Tokens(v: Value): seq<Token>
    decreases v, 1
  {
    [Tag(Variant(v))] +
    match v
    case Null => []
    case Void => []
    case Bool(b) => [BoolT(b)]
    case Integer(_, n) => [IntT(n)]
    case Float(f) => [NumT(Normal(f))]
    case Double(f) => [NumT(Normal(f))]
    case Char(c) => [CharT(c)]
    case Str(s) => [StrT(s)]
    case Tuple(items) => [IntT(|items|)] + ItemTokens(items)
    case Struct(t, fields, cell, d) => if d.hash then [StrT(t)] + FieldTokens(v, d.order) else [CellT(cell)]
    case Enum(t, variant, p) => [StrT(t), StrT(variant)] + PayloadTokens(p)
    case Function(id) => [IntT(id)]
    case Handle(i, g) => [IntT(i), IntT(g)]
    case Object(_, cell) => [CellT(cell)]
    case Unique(inner) => Tokens(inner)
    case Shared(cell, _) => [CellT(cell)]
    case SyncShared(cell, _) => [CellT(cell)]
  }

  function ItemTokens(items: seq<Value>): seq<Token>
    decreases items
  {
    if items == [] then [] else Tokens(items[0]) + ItemTokens(items[1..])
  }

  function FieldTokens(v: Value, order: seq<string>): seq<Token>
    requires v.Struct?
    decreases v, 0, |order|
  {
    if order == [] then []
    else
      var x := Get(v.fields, order[0]);
      [StrT(order[0])] + (if x.Some? then Tokens(x.value) else []) + FieldTokens(v, order[1..])
  }

  function PayloadTokens(p: Payload): seq<Token>
    decreases p
  {
    match p
    case NoPayload => []
    case Items(items) => ItemTokens(items)
    case Named(fields) => [SortedT(NamedTokens(fields))]
  }

  function NamedTokens(fields: Fields): map<string, seq<Token>>
    decreases fields
  {
    if fields == [] then map[] else NamedTokens(fields[1..])[fields[0].name := Tokens(fields[0].value)]
  }

  // ---------------------------------------------------------------- values that can occur

  /** What each struct type derives, and what each address holds. */
  datatype World = World(decls: map<string, Derives>, heap: map<Cell, Value>)

  /** The type name of object literals, which have no declaration. */
  const ANON: string := "<anon>"

  /** What semantic analysis accepts: ordering and hashing are derived only together with equality, object literals derive
      nothing, and the fields of a declaration have distinct names. */
  predicate Accepted(decls: map<string, Derives>) {
    && (forall t :: t in decls ==> (decls[t].hash ==> decls[t].eq) && (decls[t].ord ==> decls[t].eq))
    && (ANON in decls ==> !decls[ANON].eq)
    && forall t :: t in decls ==> forall i, j :: 0 <= i < j < |decls[t].order| ==> decls[t].order[i] != decls[t].order[j]
  }

  predicate DistinctNames(fields: Fields) {
    forall i, j :: 0 <= i < j < |fields| ==> fields[i].name != fields[j].name
  }

  function Names(fields: Fields): set<string> {
    set i | 0 <= i < |fields| :: fields[i].name
  }

  function OrderNames(order: seq<string>): set<string> {
    set i | 0 <= i < |order| :: order[i]
  }

  /** All structs of a type have its derivations and its declared fields, one address holds one value, and a field has one
      value. */
  predicate Known(w: World, v: Value)
    decreases v
  {
    match v
    case Tuple(items) => forall i :: 0 <= i < |items| ==> Known(w, items[i])
    case Struct(t, fields, cell, d) =>
      && t in w.decls && w.decls[t] == d && cell in w.heap && w.heap[cell] == v && FieldsKnown(w, fields)
      && (t != ANON ==> Names(fields) == OrderNames(d.order))
    case Enum(_, _, p) => PayloadKnown(w, p)
    case Unique(inner) => Known(w, inner)
    case Shared(cell, inner) => cell in w.heap && w.heap[cell] == v && Known(w, inner)
    case SyncShared(cell, inner) => cell in w.heap && w.heap[cell] == v && Known(w, inner)
    case _ => true
  }

  predicate FieldsKnown(w: World, fields: Fields)
    decreases fields
  {
    DistinctNames(fields) && forall i :: 0 <= i < |fields| ==> Known(w, fields[i].value)
  }

  predicate PayloadKnown(w: World, p: Payload)
    decreases p
  {
    match p
    case NoPayload => true
    case Items(items) => forall i :: 0 <= i < |items| ==> Known(w, items[i])
    case Named(fields) => FieldsKnown(w, fields)
  }

  // ---------------------------------------------------------------- equal values hash equally

  /** Every type that derives equality derives hashing. */
  predicate HashDerived(decls: map<string, Derives>) {
    forall t :: t in decls && decls[t].eq ==> decls[t].hash
  }

  lemma {:induction false} NamesCount(fields: Fields)
    requires DistinctNames(fields)
    ensures |Names(fields)| == |fields|
    decreases |fields|
  {
    if fields != [] {
      var n := |fields| - 1;
      var front := fields[..n];
      NamesCount(front);
      assert Names(fields) == Names(front) + {fields[n].name};
      assert fields[n].name !in Names(front);
    }
  }

  lemma SubsetFull(a: set<string>, b: set<string>)
    requires a <= b && |a| == |b|
    ensures a == b
  {
    if x :| x in b && x !in a {
      SubsetSmaller(a, b - {x});
    }
  }

  lemma SubsetSmaller(a: set<string>, b: set<string>)
    requires a <= b
    ensures |a| <= |b|
    decreases a
  {
    if x :| x in a {
      SubsetSmaller(a - {x}, b - {x});
    }
  }

  lemma GetAt(fields: Fields, i: nat)
    requires DistinctNames(fields) && i < |fields|
    ensures Get(fields, fields[i].name) == Some(fields[i].value)
  {
    var v := Get(fields, fields[i].name);
    if v.Some? {
      var j :| 0 <= j < |fields| && fields[j] == Field(fields[i].name, v.value);
    }
  }

  /** Equal maps have the same names, with equal values. */
  lemma EqualGets(a: Fields, b: Fields, name: string)
    requires DistinctNames(a) && DistinctNames(b) && FieldsEqual(a, b)
    ensures match (Get(a, name), Get(b, name))
            case (Some(x), Some(y)) => Equals(x, y)
            case (None, None) => true
            case _ => false
  {
    forall x | x in Names(a)
      ensures x in Names(b)
    {
      var i :| 0 <= i < |a| && a[i].name == x;
      var v := Get(b, a[i].name);
      assert v.Some?;
    }
    NamesCount(a);
    NamesCount(b);
    var x, y := Get(a, name), Get(b, name);
    assert y.Some? ==> name in Names(b);
    SubsetFull(Names(a), Names(b));
    if x.Some? {
      var i :| 0 <= i < |a| && a[i] == Field(name, x.value);
    }
  }

  /** Values that are equal feed the same to the hasher. */
  lemma {:induction false} EqualHash(w: World, a: Value, b: Value)
    requires Known(w, a) && Known(w, b) && HashDerived(w.decls) && Equals(a, b)
    ensures Tokens(a) == Tokens(b)
    decreases a, 1
  {
    match (a, b) {
      case (Tuple(x), Tuple(y)) => EqualItems(w, x, y);
      case (Struct(_, x, _, d), Struct(_, y, _, _)) =>
        if d.eq || b.derives.eq {
          EqualFields(w, a, b, d.order);
        }
      case (Enum(_, _, p), Enum(_, _, q)) =>
        match (p, q) {
          case (Items(x), Items(y)) => EqualItems(w, x, y);
          case (Named(x), Named(y)) => EqualNamed(w, x, y);
          case _ =>
        }
      case (Unique(x), Unique(y)) => EqualHash(w, x, y);
      case _ =>
    }
  }

  lemma {:induction false} EqualItems(w: World, a: seq<Value>, b: seq<Value>)
    requires AllEqual(a, b) && HashDerived(w.decls)
    requires (forall i :: 0 <= i < |a| ==> Known(w, a[i])) && forall i :: 0 <= i < |b| ==> Known(w, b[i])
    ensures ItemTokens(a) == ItemTokens(b)
    decreases a
  {
    if a != [] {
      EqualHash(w, a[0], b[0]);
      EqualItems(w, a[1..], b[1..]);
    }
  }

  lemma {:induction false} EqualFields(w: World, a: Value, b: Value, order: seq<string>)
    requires a.Struct? && b.Struct? && FieldsKnown(w, a.fields) && FieldsKnown(w, b.fields)
    requires FieldsEqual(a.fields, b.fields) && HashDerived(w.decls)
    ensures FieldTokens(a, order) == FieldTokens(b, order)
    decreases a, 0, |order|
  {
    if order != [] {
      EqualGets(a.fields, b.fields, order[0]);
      var x, y := Get(a.fields, order[0]), Get(b.fields, order[0]);
      if x.Some? {
        EqualHash(w, x.value, y.value);
      }
      EqualFields(w, a, b, order[1..]);
    }
  }

  lemma {:induction false} NamedAt(fields: Fields, name: string)
    requires DistinctNames(fields)
    ensures name in NamedTokens(fields) <==> Get(fields, name).Some?
    ensures Get(fields, name).Some? ==> NamedTokens(fields)[name] == Tokens(Get(fields, name).value)
    decreases fields
  {
    if fields != [] {
      NamedAt(fields[1..], name);
    }
  }

  lemma {:induction false} EqualNamed(w: World, a: Fields, b: Fields)
    requires FieldsKnown(w, a) && FieldsKnown(w, b) && FieldsEqual(a, b) && HashDerived(w.decls)
    ensures NamedTokens(a) == NamedTokens(b)
    decreases a
  {
    forall name
      ensures name in NamedTokens(a) <==> name in NamedTokens(b)
      ensures name in NamedTokens(a) ==> NamedTokens(a)[name] == NamedTokens(b)[name]
    {
      NamedAt(a, name);
      NamedAt(b, name);
      EqualGets(a, b, name);
      var x, y := Get(a, name), Get(b, name);
      if x.Some? {
        EqualHash(w, x.value, y.value);
      }
    }
  }

  /** The contract of equality and hashing over all values of a program with the declarations `decls`. */
  ghost predicate HashContract(decls: map<string, Derives>) {
    forall heap, a, b :: Known(World(decls, heap), a) && Known(World(decls, heap), b) && Equals(a, b) ==> Tokens(a) == Tokens(b)
  }

  /** The declared fields, all null. */
  function NullFields(order: seq<string>): (fields: Fields)
    ensures |fields| == |order| && forall i :: 0 <= i < |order| ==> fields[i] == Field(order[i], Null)
  {
    if order == [] then [] else NullFields(order[..|order| - 1]) + [Field(order[|order| - 1], Null)]
  }

  /** Two structs of a type that derives equality but not hashing, with the same declared fields, are equal and are hashed
      by their addresses. */
  lemma AddressHash(decls: map<string, Derives>, t: string)
    requires Accepted(decls) && t in decls && decls[t].eq && !decls[t].hash
    ensures !HashContract(decls)
  {
    var d, fields := decls[t], NullFields(decls[t].order);
    var a, b := Struct(t, fields, 0, d), Struct(t, fields, 1, d);
    var heap := map[0 := a, 1 := b];
    var w := World(decls, heap);
    NullKnown(w, d.order);
    NullsEqual(fields);
    hide NullFields, FieldsKnown, FieldsEqual, Names, OrderNames, Tokens, Equals;
    StructsDiffer(t, fields, d);
    hide Known;
    StructKnown(w, t, fields, 0, d);
    StructKnown(w, t, fields, 1, d);
    assert decls == w.decls && heap == w.heap;
  }

  lemma StructsDiffer(t: string, fields: Fields, d: Derives)
    requires d.eq && !d.hash && FieldsEqual(fields, fields)
    ensures Equals(Struct(t, fields, 0, d), Struct(t, fields, 1, d))
    ensures Tokens(Struct(t, fields, 0, d)) != Tokens(Struct(t, fields, 1, d))
  {
    hide FieldsEqual;
    assert Tokens(Struct(t, fields, 0, d))[1] == CellT(0) && Tokens(Struct(t, fields, 1, d))[1] == CellT(1);
  }

  lemma NullKnown(w: World, order: seq<string>)
    requires forall i, j :: 0 <= i < j < |order| ==> order[i] != order[j]
    ensures FieldsKnown(w, NullFields(order)) && DistinctNames(NullFields(order)) && Names(NullFields(order)) == OrderNames(order)
    ensures forall i :: 0 <= i < |order| ==> NullFields(order)[i].value == Null
  {
    var fields := NullFields(order);
    forall x
      ensures x in Names(fields) <==> x in OrderNames(order)
    {
      if x in Names(fields) {
        var i :| 0 <= i < |fields| && fields[i].name == x;
        assert order[i] == x;
      }
      if x in OrderNames(order) {
        var i :| 0 <= i < |order| && order[i] == x;
        assert fields[i].name == x;
      }
    }
  }

  lemma NullsEqual(fields: Fields)
    requires DistinctNames(fields) && forall i :: 0 <= i < |fields| ==> fields[i].value == Null
    ensures FieldsEqual(fields, fields)
  {
    forall i | 0 <= i < |fields|
      ensures var v := Get(fields, fields[i].name); v.Some? && Equals(fields[i].value, v.value)
    {
      GetAt(fields, i);
    }
  }

  /** The contract holds for the declarations of an accepted program exactly when every type that derives equality derives
      hashing. */
  lemma HashContractIff(decls: map<string, Derives>)
    requires Accepted(decls)
    ensures HashContract(decls) <==> HashDerived(decls)
  {
    if HashDerived(decls) {
      forall heap, a, b | Known(World(decls, heap), a) && Known(World(decls, heap), b) && Equals(a, b)
        ensures Tokens(a) == Tokens(b)
      {
        EqualHash(World(decls, heap), a, b);
      }
    } else {
      var t :| t in decls && decls[t].eq && !decls[t].hash;
      AddressHash(decls, t);
    }
  }

  /** `@derive(PartialEq) struct P { x: int }` is accepted, and breaks the contract: two instances with `x = 1` are equal
      and are hashed differently. */
  lemma PartialEqAlone()
    ensures var d := Derives(true, false, false, ["x"]);
            var decls := map["P" := d];
            var fields := [Field("x", Integer(I64, 1))];
            var a, b := Struct("P", fields, 0, d), Struct("P", fields, 1, d);
            var w := World(decls, map[0 := a, 1 := b]);
            Accepted(decls) && Known(w, a) && Known(w, b) && Equals(a, b) && Tokens(a) != Tokens(b) && !HashContract(decls)
  {
    var d := Derives(true, false, false, ["x"]);
    var decls := map["P" := d];
    var fields := [Field("x", Integer(I64, 1))];
    var a, b := Struct("P", fields, 0, d), Struct("P", fields, 1, d);
    var w := World(decls, map[0 := a, 1 := b]);
    OneField(w);
    hide Known, Equals, Tokens, HashContract, Names, OrderNames, FieldsKnown, FieldsEqual;
    StructsDiffer("P", fields, d);
    AddressHash(decls, "P");
    StructKnown(w, "P", fields, 0, d);
    StructKnown(w, "P", fields, 1, d);
  }

  lemma OneField(w: World)
    ensures var fields := [Field("x", Integer(I64, 1))];
            FieldsKnown(w, fields) && FieldsEqual(fields, fields) && Names(fields) == OrderNames(["x"])
  {
    var fields := [Field("x", Integer(I64, 1))];
    assert ["x"][0] == "x" && fields[0].name == "x";
    assert Names(fields) == {"x"} == OrderNames(["x"]);
    assert Get(fields, "x") == Some(Integer(I64, 1));
  }

  lemma StructKnown(w: World, t: string, fields: Fields, cell: Cell, d: Derives)
    requires t in w.decls && w.decls[t] == d && FieldsKnown(w, fields) && Names(fields) == OrderNames(d.order)
    requires cell in w.heap && w.heap[cell] == Struct(t, fields, cell, d)
    ensures Known(w, Struct(t, fields, cell, d))
  {
    hide FieldsKnown, Names, OrderNames;
  }

  // ---------------------------------------------------------------- equality is an equivalence

  lemma EqualVariant(a: Value, b: Value)
    requires Equals(a, b)
    ensures Variant(a) == Variant(b)
  {
  }

  /** Equality is symmetric. */
  lemma {:induction false} EqualSymmetric(w: World, a: Value, b: Value)
    requires Known(w, a) && Known(w, b) && Equals(a, b)
    ensures Equals(b, a)
    decreases a, 1
  {
    EqualVariant(a, b);
    match a {
      case Tuple(x) => ItemsSymmetric(w, x, b.items);
      case Struct(_, x, _, d) =>
        if d.eq || b.derives.eq {
          FieldsSymmetric(w, x, b.fields);
        }
      case Enum(_, _, p) =>
        match (p, b.payload) {
          case (Items(x), Items(y)) => ItemsSymmetric(w, x, y);
          case (Named(x), Named(y)) => FieldsSymmetric(w, x, y);
          case _ =>
        }
      case Unique(x) => EqualSymmetric(w, x, b.inner);
      case _ =>
    }
  }

  lemma {:induction false} ItemsSymmetric(w: World, a: seq<Value>, b: seq<Value>)
    requires (forall i :: 0 <= i < |a| ==> Known(w, a[i])) && (forall i :: 0 <= i < |b| ==> Known(w, b[i])) && AllEqual(a, b)
    ensures AllEqual(b, a)
    decreases a
  {
    forall i | 0 <= i < |a|
      ensures Equals(b[i], a[i])
    {
      EqualSymmetric(w, a[i], b[i]);
    }
  }

  lemma {:induction false} FieldsSymmetric(w: World, a: Fields, b: Fields)
    requires FieldsKnown(w, a) && FieldsKnown(w, b) && FieldsEqual(a, b)
    ensures FieldsEqual(b, a)
    decreases a
  {
    forall i | 0 <= i < |b|
      ensures var v := Get(a, b[i].name); v.Some? && Equals(b[i].value, v.value)
    {
      GetAt(b, i);
      EqualGets(a, b, b[i].name);
      var v := Get(a, b[i].name);
      EqualSymmetric(w, v.value, b[i].value);
    }
  }

  /** Equality is transitive. */
  lemma {:induction false} EqualTransitive(w: World, a: Value, b: Value, c: Value)
    requires Known(w, a) && Known(w, b) && Known(w, c) && Equals(a, b) && Equals(b, c)
    ensures Equals(a, c)
    decreases a, 1
  {
    EqualVariant(a, b);
    EqualVariant(b, c);
    match a {
      case Tuple(x) => ItemsTransitive(w, x, b.items, c.items);
      case Struct(_, x, _, d) =>
        if d.eq {
          FieldsTransitiveEqual(w, x, b.fields, c.fields);
        }
      case Enum(_, _, p) =>
        match (p, b.payload, c.payload) {
          case (Items(x), Items(y), Items(z)) => ItemsTransitive(w, x, y, z);
          case (Named(x), Named(y), Named(z)) => FieldsTransitiveEqual(w, x, y, z);
          case _ =>
        }
      case Unique(x) => EqualTransitive(w, x, b.inner, c.inner);
      case _ =>
    }
  }

  lemma {:induction false} ItemsTransitive(w: World, a: seq<Value>, b: seq<Value>, c: seq<Value>)
    requires (forall i :: 0 <= i < |a| ==> Known(w, a[i])) && (forall i :: 0 <= i < |b| ==> Known(w, b[i]))
    requires (forall i :: 0 <= i < |c| ==> Known(w, c[i])) && AllEqual(a, b) && AllEqual(b, c)
    ensures AllEqual(a, c)
    decreases a
  {
    forall i | 0 <= i < |a|
      ensures Equals(a[i], c[i])
    {
      EqualTransitive(w, a[i], b[i], c[i]);
    }
  }

  lemma {:induction false} FieldsTransitiveEqual(w: World, a: Fields, b: Fields, c: Fields)
    requires FieldsKnown(w, a) && FieldsKnown(w, b) && FieldsKnown(w, c) && FieldsEqual(a, b) && FieldsEqual(b, c)
    ensures FieldsEqual(a, c)
    decreases a
  {
    forall i | 0 <= i < |a|
      ensures var v := Get(c, a[i].name); v.Some? && Equals(a[i].value, v.value)
    {
      EqualGets(b, c, a[i].name);
      var u := Get(b, a[i].name);
      var v := Get(c, a[i].name);
      EqualTransitive(w, a[i].value, u.value, v.value);
    }
  }

  /** A value in which equality meets a NaN. */
  predicate HasNaN(v: Value)
    decreases v
  {
    match v
    case Float(f) => f.NaN?
    case Double(f) => f.NaN?
    case Tuple(items) => exists i :: 0 <= i < |items| && HasNaN(items[i])
    case Struct(_, fields, _, d) => d.eq && exists i :: 0 <= i < |fields| && HasNaN(fields[i].value)
    case Enum(_, _, p) => PayloadNaN(p)
    case Unique(inner) => HasNaN(inner)
    case _ => false
  }

  predicate PayloadNaN(p: Payload)
    decreases p
  {
    match p
    case NoPayload => false
    case Items(items) => exists i :: 0 <= i < |items| && HasNaN(items[i])
    case Named(fields) => exists i :: 0 <= i < |fields| && HasNaN(fields[i].value)
  }

  /** A value equals itself unless a NaN is met. */
  lemma {:induction false} EqualReflexive(w: World, a: Value)
    requires Known(w, a)
    ensures Equals(a, a) <==> !HasNaN(a)
    decreases a, 1
  {
    match a {
      case Tuple(x) => ItemsReflexive(w, x);
      case Struct(_, x, _, _) => FieldsReflexive(w, x);
      case Enum(_, _, p) =>
        match p {
          case Items(x) => ItemsReflexive(w, x);
          case Named(x) => FieldsReflexive(w, x);
          case _ =>
        }
      case Unique(x) => EqualReflexive(w, x);
      case _ =>
    }
  }

  lemma {:induction false} ItemsReflexive(w: World, a: seq<Value>)
    requires forall i :: 0 <= i < |a| ==> Known(w, a[i])
    ensures AllEqual(a, a) <==> !exists i :: 0 <= i < |a| && HasNaN(a[i])
    decreases a
  {
    forall i | 0 <= i < |a|
      ensures Equals(a[i], a[i]) <==> !HasNaN(a[i])
    {
      EqualReflexive(w, a[i]);
    }
  }

  lemma {:induction false} FieldsReflexive(w: World, a: Fields)
    requires FieldsKnown(w, a)
    ensures FieldsEqual(a, a) <==> !exists i :: 0 <= i < |a| && HasNaN(a[i].value)
    decreases a
  {
    forall i | 0 <= i < |a|
      ensures (var v := Get(a, a[i].name); v.Some? && Equals(a[i].value, v.value)) <==> !HasNaN(a[i].value)
    {
      GetAt(a, i);
      EqualReflexive(w, a[i].value);
    }
  }

  // ---------------------------------------------------------------- ordering

  datatype Ordering = Less | Equal | Greater

  function CmpInt(a: int, b: int): Ordering {
    if a < b then Less else if a == b then Equal else Greater
  }

  /** Strings are compared character by character. */
  function CmpStr(a: string, b: string): Ordering {
    if a == [] then (if b == [] then Equal else Less)
    else if b == [] then Greater
    else
      var c := CmpInt(a[0] as int, b[0] as int);
      if c != Equal then c else CmpStr(a[1..], b[1..])
  }

  function CmpNum(a: Num, b: Num): Option<Ordering> {
    if a.NaN? || b.NaN? then None else Some(CmpInt(Rank(a), Rank(b)))
  }

  function BoolRank(b: bool): int {
    if b then 1 else 0
  }

  /** `partial_cmp`: wrappers compare what they hold, and structs that derive it their fields in order. */
  function Cmp(a: Value, b: Value): Option<Ordering>
    decreases a, 1, 0
  {
    match (a, b)
    case (Integer(j, x), Integer(k, y)) => if j == k then Some(CmpInt(x, y)) else None
    case (Float(x), Float(y)) => CmpNum(x, y)
    case (Double(x), Double(y)) => CmpNum(x, y)
    case (Str(x), Str(y)) => Some(CmpStr(x, y))
    case (Bool(x), Bool(y)) => Some(CmpInt(BoolRank(x), BoolRank(y)))
    case (Struct(t, _, _, d), Struct(u, _, _, e)) => if d.ord && e.ord && t == u then CmpFields(a, b, d.order) else None
    case (Unique(x), Unique(y)) => Cmp(x, y)
    case (Shared(_, x), Shared(_, y)) => Cmp(x, y)
    case (SyncShared(_, x), SyncShared(_, y)) => Cmp(x, y)
    case _ => None
  }

  function CmpFields(a: Value, b: Value, order: seq<string>): Option<Ordering>
    requires a.Struct? && b.Struct?
    decreases a, 0, |order|
  {
    if order == [] then Some(Equal)
    else
      match (Get(a.fields, order[0]), Get(b.fields, order[0]))
      case (Some(x), Some(y)) =>
        var c := Cmp(x, y);
        if c == Some(Equal) then CmpFields(a, b, order[1..]) else c
      case _ => None
  }

  function Flip(c: Ordering): Ordering {
    match c
    case Less => Greater
    case Equal => Equal
    case Greater => Less
  }

  function Flipped(c: Option<Ordering>): Option<Ordering> {
    if c.Some? then Some(Flip(c.value)) else None
  }

  lemma {:induction false} StrFlip(a: string, b: string)
    ensures CmpStr(b, a) == Flip(CmpStr(a, b)) && (CmpStr(a, b) == Equal <==> a == b)
    decreases |a|
  {
    if a != [] && b != [] {
      StrFlip(a[1..], b[1..]);
      assert a == [a[0]] + a[1..] && b == [b[0]] + b[1..];
    }
  }

  /** Only values of one variant compare. */
  lemma Comparable(a: Value, b: Value)
    ensures Cmp(a, b).Some? || Cmp(b, a).Some? ==> Variant(a) == Variant(b)
  {
  }

  /** Comparing the other way round gives the opposite answer. */
  lemma {:induction false} Antisymmetric(w: World, a: Value, b: Value)
    requires Known(w, a) && Known(w, b)
    ensures Cmp(b, a) == Flipped(Cmp(a, b))
    decreases a, 1, 0
  {
    Comparable(a, b);
    if Variant(a) == Variant(b) {
      match a {
        case Str(x) => StrFlip(x, b.s);
        case Struct(t, _, _, d) =>
          if t == b.typeName {
            FieldsFlip(w, a, b, d.order);
          }
        case Unique(x) => Antisymmetric(w, x, b.inner);
        case Shared(_, x) => Antisymmetric(w, x, b.inner);
        case SyncShared(_, x) => Antisymmetric(w, x, b.inner);
        case _ =>
      }
    }
  }

  lemma {:induction false} FieldsFlip(w: World, a: Value, b: Value, order: seq<string>)
    requires a.Struct? && b.Struct? && FieldsKnown(w, a.fields) && FieldsKnown(w, b.fields)
    ensures CmpFields(b, a, order) == Flipped(CmpFields(a, b, order))
    decreases a, 0, |order|
  {
    if order != [] {
      var x, y := Get(a.fields, order[0]), Get(b.fields, order[0]);
      if x.Some? && y.Some? {
        Antisymmetric(w, x.value, y.value);
        FieldsFlip(w, a, b, order[1..]);
      }
    }
  }

  /** What two comparisons say together: nothing when they point in opposite directions. */
  function Both(c: Ordering, d: Ordering): Option<Ordering> {
    if c == Equal then Some(d) else if d == Equal || d == c then Some(c) else None
  }

  /** `e` is the comparison that `c` and `d` together require. */
  predicate Follows(c: Option<Ordering>, d: Option<Ordering>, e: Option<Ordering>) {
    c.Some? && d.Some? && Both(c.value, d.value).Some? ==> e == Both(c.value, d.value)
  }

  lemma {:induction false} StrTransitive(a: string, b: string, c: string)
    ensures Follows(Some(CmpStr(a, b)), Some(CmpStr(b, c)), Some(CmpStr(a, c)))
    decreases |a|
  {
    if a != [] && b != [] && c != [] {
      StrTransitive(a[1..], b[1..], c[1..]);
    }
  }

  /** Comparison is transitive, and equal values compare alike. */
  lemma {:induction false} Transitive(w: World, a: Value, b: Value, c: Value)
    requires Known(w, a) && Known(w, b) && Known(w, c)
    ensures Follows(Cmp(a, b), Cmp(b, c), Cmp(a, c))
    decreases a, 1, 0
  {
    Comparable(a, b);
    Comparable(b, c);
    if Variant(a) == Variant(b) == Variant(c) {
      match a {
        case Str(x) => StrTransitive(x, b.s, c.s);
        case Struct(t, _, _, d) =>
          if t == b.typeName == c.typeName {
            FieldsTransitive(w, a, b, c, d.order);
          }
        case Unique(x) => Transitive(w, x, b.inner, c.inner);
        case Shared(_, x) => Transitive(w, x, b.inner, c.inner);
        case SyncShared(_, x) => Transitive(w, x, b.inner, c.inner);
        case _ =>
      }
    }
  }

  lemma {:induction false} FieldsTransitive(w: World, a: Value, b: Value, c: Value, order: seq<string>)
    requires a.Struct? && b.Struct? && c.Struct?
    requires FieldsKnown(w, a.fields) && FieldsKnown(w, b.fields) && FieldsKnown(w, c.fields)
    ensures Follows(CmpFields(a, b, order), CmpFields(b, c, order), CmpFields(a, c, order))
    decreases a, 0, |order|
  {
    if order != [] {
      var x, y, z := Get(a.fields, order[0]), Get(b.fields, order[0]), Get(c.fields, order[0]);
      if x.Some? && y.Some? && z.Some? {
        Transitive(w, x.value, y.value, z.value);
        FieldsTransitive(w, a, b, c, order[1..]);
      }
    }
  }

  /** Equal values are never ordered one before the other, although equality looks at addresses where comparison looks at
      contents. */
  lemma {:induction false} EqualIsNotOrdered(w: World, a: Value, b: Value)
    requires Known(w, a) && Known(w, b) && Equals(a, b) && Cmp(a, b).Some?
    ensures Cmp(a, b) == Some(Equal)
    decreases a, 1, 0
  {
    match (a, b) {
      case (Str(x), Str(y)) => StrFlip(x, y);
      case (Struct(_, _, _, d), Struct(_, _, _, _)) =>
        if d.eq || b.derives.eq {
          EqualFieldsNotOrdered(w, a, b, d.order);
        } else {
          SelfNotOrdered(w, a);
        }
      case (Unique(x), Unique(y)) => EqualIsNotOrdered(w, x, y);
      case (Shared(_, x), Shared(_, _)) => SelfNotOrdered(w, a);
      case (SyncShared(_, x), SyncShared(_, _)) => SelfNotOrdered(w, a);
      case _ =>
    }
  }

  lemma SelfNotOrdered(w: World, a: Value)
    requires Known(w, a) && Cmp(a, a).Some?
    ensures Cmp(a, a) == Some(Equal)
  {
    Antisymmetric(w, a, a);
  }

  lemma {:induction false} EqualFieldsNotOrdered(w: World, a: Value, b: Value, order: seq<string>)
    requires a.Struct? && b.Struct? && FieldsKnown(w, a.fields) && FieldsKnown(w, b.fields)
    requires FieldsEqual(a.fields, b.fields) && CmpFields(a, b, order).Some?
    ensures CmpFields(a, b, order) == Some(Equal)
    decreases a, 0, |order|
  {
    if order != [] {
      EqualGets(a.fields, b.fields, order[0]);
      var x, y := Get(a.fields, order[0]), Get(b.fields, order[0]);
      EqualIsNotOrdered(w, x.value, y.value);
      EqualFieldsNotOrdered(w, a, b, order[1..]);
    }
  }
}

/** What `Value::equals` compares, said without it (crates/core/src/interpreter/value.rs). */
module ValueEquality {
  import opened Wrappers
  import opened Values

  /** All that equality sees of a value: of a struct that derives it and of a variant their fields as a map, of values
      with an address of their own only that address, of the two zeros the same, and of any other value the value. */
  datatype Essence =
    | Plain(v: Value)
    | Number(wide: bool, x: Num)
    | Many(items: seq<Essence>)
    | Record(typeName: string, fields: map<string, Essence>)
    | Choice(typeName: string, variant: string, payload: Essence)
    | Nothing
    | Address(sort: nat, cell: Cell)
    | Boxed(e: Essence)

  function Of(v: Value): Essence
    decreases v
  {
    match v
    case Float(x) => Number(false, if x == NegZero then Ordered(0) else x)
    case Double(x) => Number(true, if x == NegZero then Ordered(0) else x)
    case Tuple(items) => Many(OfItems(items))
    case Struct(t, fields, cell, d) => if d.eq then Record(t, OfFields(fields)) else Address(Variant(v), cell)
    case Enum(t, variant, p) => Choice(t, variant, OfPayload(p))
    case Object(_, cell) => Address(Variant(v), cell)
    case Unique(inner) => Boxed(Of(inner))
    case Shared(cell, _) => Address(Variant(v), cell)
    case SyncShared(cell, _) => Address(Variant(v), cell)
    case _ => Plain(v)
  }

  function OfItems(items: seq<Value>): (r: seq<Essence>)
    ensures |r| == |items| && forall i :: 0 <= i < |items| ==> r[i] == Of(items[i])
    decreases items
  {
    if items == [] then [] else [Of(items[0])] + OfItems(items[1..])
  }

  function OfFields(fields: Fields): map<string, Essence>
    decreases fields
  {
    if fields == [] then map[] else OfFields(fields[1..])[fields[0].name := Of(fields[0].value)]
  }

  function OfPayload(p: Payload): Essence
    decreases p
  {
    match p
    case NoPayload => Nothing
    case Items(items) => Many(OfItems(items))
    case Named(fields) => Record("", OfFields(fields))
  }

  lemma {:induction false} OfField(fields: Fields, name: string)
    requires DistinctNames(fields)
    ensures name in OfFields(fields) <==> Get(fields, name).Some?
    ensures Get(fields, name).Some? ==> OfFields(fields)[name] == Of(Get(fields, name).value)
    decreases fields
  {
    if fields != [] {
      OfField(fields[1..], name);
    }
  }

  /** Two values are equal exactly if they have the same essence and no NaN is met in it. */
  lemma {:induction false} EqualsIs(w: World, a: Value, b: Value)
    requires Known(w, a) && Known(w, b)
    ensures Equals(a, b) <==> !HasNaN(a) && Of(a) == Of(b)
    decreases a, 2
  {
    match (a, b) {
      case (Tuple(x), Tuple(y)) => ItemsEqual(w, x, y);
      case (Struct(t, x, _, d), Struct(u, y, _, _)) =>
        if d.eq && t == u {
          NamedEqual(w, x, y);
        }
      case (Enum(_, _, p), Enum(_, _, q)) => PayloadsEqual(w, p, q);
      case (Unique(x), Unique(y)) => EqualsIs(w, x, y);
      case _ => OthersEqual(a, b);
    }
  }

  lemma OthersEqual(a: Value, b: Value)
    requires !(a.Tuple? && b.Tuple?) && !(a.Struct? && b.Struct?) && !(a.Enum? && b.Enum?) && !(a.Unique? && b.Unique?)
    ensures Equals(a, b) <==> !HasNaN(a) && Of(a) == Of(b)
  {
  }

  lemma {:induction false} PayloadsEqual(w: World, p: Payload, q: Payload)
    requires PayloadKnown(w, p) && PayloadKnown(w, q)
    ensures PayloadEqual(p, q) <==> !PayloadNaN(p) && OfPayload(p) == OfPayload(q)
    decreases p, 1
  {
    match (p, q) {
      case (Items(x), Items(y)) => ItemsEqual(w, x, y);
      case (Named(x), Named(y)) => NamedEqual(w, x, y);
      case _ =>
    }
  }

  lemma {:induction false} ItemsEqual(w: World, x: seq<Value>, y: seq<Value>)
    requires (forall i :: 0 <= i < |x| ==> Known(w, x[i])) && forall i :: 0 <= i < |y| ==> Known(w, y[i])
    ensures AllEqual(x, y) <==> !(exists i :: 0 <= i < |x| && HasNaN(x[i])) && OfItems(x) == OfItems(y)
    decreases x, 0
  {
    hide Equals, HasNaN, Of, Known, OfItems;
    if |x| == |y| {
      forall i | 0 <= i < |x|
        ensures Equals(x[i], y[i]) <==> !HasNaN(x[i]) && OfItems(x)[i] == OfItems(y)[i]
      {
        EqualsIs(w, x[i], y[i]);
      }
    }
  }

  lemma {:induction false} NamedEqual(w: World, x: Fields, y: Fields)
    requires FieldsKnown(w, x) && FieldsKnown(w, y)
    ensures FieldsEqual(x, y) <==> !(exists i :: 0 <= i < |x| && HasNaN(x[i].value)) && OfFields(x) == OfFields(y)
    decreases x, 0
  {
    hide Equals, HasNaN, Of, Known;
    forall i | 0 <= i < |x|
      ensures x[i].name in OfFields(x) && OfFields(x)[x[i].name] == Of(x[i].value)
      ensures x[i].name in OfFields(y) <==> Get(y, x[i].name).Some?
      ensures var v := Get(y, x[i].name);
              v.Some? ==> OfFields(y)[x[i].name] == Of(v.value) && (Equals(x[i].value, v.value) <==> !HasNaN(x[i].value) && Of(x[i].value) == Of(v.value))
    {
      GetAt(x, i);
      OfField(x, x[i].name);
      OfField(y, x[i].name);
      var v := Get(y, x[i].name);
      if v.Some? {
        EqualsIs(w, x[i].value, v.value);
      }
    }
    SameNames(x, y);
    KeysAre(x);
    hide OfFields, Get;
    if FieldsEqual(x, y) {
      forall n | n in OfFields(x)
        ensures n in OfFields(y) && OfFields(x)[n] == OfFields(y)[n]
      {
        assert n in Names(x);
        var i :| 0 <= i < |x| && x[i].name == n;
      }
    }
  }

  /** Equal maps, or as many fields all of which the other one has, mean the same names. */
  lemma SameNames(x: Fields, y: Fields)
    requires DistinctNames(x) && DistinctNames(y)
    ensures OfFields(x) == OfFields(y) ==> |x| == |y|
    ensures |x| == |y| && (forall i :: 0 <= i < |x| ==> x[i].name in OfFields(y)) ==> OfFields(x).Keys == OfFields(y).Keys
  {
    KeysAre(x);
    KeysAre(y);
    NamesCount(x);
    NamesCount(y);
    if |x| == |y| && forall i :: 0 <= i < |x| ==> x[i].name in OfFields(y) {
      SubsetFull(Names(x), Names(y));
    }
  }

  lemma {:induction false} KeysAre(fields: Fields)
    ensures OfFields(fields).Keys == Names(fields)
    decreases fields
  {
    if fields != [] {
      KeysAre(fields[1..]);
      assert Names(fields) == {fields[0].name} + Names(fields[1..]);
    }
  }
}

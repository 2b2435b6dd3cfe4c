/** Which way `Value::partial_cmp` orders two values, said without it (crates/core/src/interpreter/value.rs). */
module ValueOrder {
  import opened Wrappers
  import opened Values

  // ---------------------------------------------------------------- what comes before what

  /** `a` is a proper beginning of `b`, or has the smaller character where they first differ. */
  ghost predicate StrBefore(a: string, b: string) {
    exists k: nat :: k <= |a| && k < |b| && a[..k] == b[..k] && (k == |a| || a[k] < b[k])
  }

  /** The smaller number; a NaN comes neither before nor after a number, and both zeros are zero. */
  predicate NumBefore(a: Num, b: Num) {
    match (a, b)
    case (Ordered(x), Ordered(y)) => x < y
    case (Ordered(x), NegZero) => x < 0
    case (NegZero, Ordered(y)) => 0 < y
    case _ => false
  }

  predicate NumTied(a: Num, b: Num) {
    match (a, b)
    case (Ordered(x), Ordered(y)) => x == y
    case (Ordered(x), NegZero) => x == 0
    case (NegZero, Ordered(y)) => 0 == y
    case (NegZero, NegZero) => true
    case _ => false
  }

  /** Both structs derive an order and are of one type. */
  predicate OneOrder(a: Value, b: Value) {
    a.Struct? && b.Struct? && a.derives.ord && b.derives.ord && a.typeName == b.typeName
  }

  /** Both structs have the field, and its values are tied. */
  ghost predicate FieldTied(a: Value, b: Value, name: string)
    requires a.Struct? && b.Struct?
    decreases a, 0
  {
    var x, y := Get(a.fields, name), Get(b.fields, name);
    x.Some? && y.Some? && Tied(x.value, y.value)
  }

  ghost predicate FieldBefore(a: Value, b: Value, name: string)
    requires a.Struct? && b.Struct?
    decreases a, 0
  {
    var x, y := Get(a.fields, name), Get(b.fields, name);
    x.Some? && y.Some? && Before(x.value, y.value)
  }

  /** Neither of the two comes first. */
  ghost predicate Tied(a: Value, b: Value)
    decreases a, 1
  {
    match (a, b)
    case (Integer(j, x), Integer(k, y)) => j == k && x == y
    case (Float(x), Float(y)) => NumTied(x, y)
    case (Double(x), Double(y)) => NumTied(x, y)
    case (Bool(x), Bool(y)) => x == y
    case (Str(x), Str(y)) => x == y
    case (Struct(_, _, _, d), Struct(_, _, _, _)) => OneOrder(a, b) && forall i :: 0 <= i < |d.order| ==> FieldTied(a, b, d.order[i])
    case (Unique(x), Unique(y)) => Tied(x, y)
    case (Shared(_, x), Shared(_, y)) => Tied(x, y)
    case (SyncShared(_, x), SyncShared(_, y)) => Tied(x, y)
    case _ => false
  }

  /** Integers of one kind by value, `false` before `true`, structs by the first declared field that is not tied, and
      wrappers by what they hold. */
  ghost predicate Before(a: Value, b: Value)
    decreases a, 1
  {
    match (a, b)
    case (Integer(j, x), Integer(k, y)) => j == k && x < y
    case (Float(x), Float(y)) => NumBefore(x, y)
    case (Double(x), Double(y)) => NumBefore(x, y)
    case (Bool(x), Bool(y)) => !x && y
    case (Str(x), Str(y)) => StrBefore(x, y)
    case (Struct(_, _, _, d), Struct(_, _, _, _)) =>
      && OneOrder(a, b)
      && exists k :: 0 <= k < |d.order| && FieldBefore(a, b, d.order[k]) && forall i :: 0 <= i < k ==> FieldTied(a, b, d.order[i])
    case (Unique(x), Unique(y)) => Before(x, y)
    case (Shared(_, x), Shared(_, y)) => Before(x, y)
    case (SyncShared(_, x), SyncShared(_, y)) => Before(x, y)
    case _ => false
  }

  // ---------------------------------------------------------------- the comparison says so

  lemma {:induction false} StringsCompare(a: string, b: string)
    ensures CmpStr(a, b) == Less <==> StrBefore(a, b)
    ensures CmpStr(a, b) == Equal <==> a == b
    decreases |a|
  {
    StrFlip(a, b);
    if a != [] && b != [] {
      StringsCompare(a[1..], b[1..]);
      BehindFirst(a, b);
      FirstDiffers(a, b);
    } else if b != [] {
      assert a[..0] == b[..0];
    }
  }

  lemma FirstDiffers(a: string, b: string)
    requires a != [] && b != []
    ensures a[0] != b[0] ==> (StrBefore(a, b) <==> a[0] < b[0])
  {
    if a[0] < b[0] {
      assert a[..0] == b[..0];
    }
    if a[0] != b[0] && StrBefore(a, b) {
      var k: nat :| k <= |a| && k < |b| && a[..k] == b[..k] && (k == |a| || a[k] < b[k]);
      if k > 0 {
        FirstOf(a, b, k);
        assert false;
      }
    }
  }

  lemma FirstOf(a: string, b: string, k: nat)
    requires 0 < k <= |a| && k <= |b| && a[..k] == b[..k]
    ensures a[0] == b[0]
  {
    assert a[..k][0] == a[0] && b[..k][0] == b[0];
  }

  /** After an equal first character the others decide. */
  lemma BehindFirst(a: string, b: string)
    requires a != [] && b != []
    ensures a[0] == b[0] ==> (StrBefore(a, b) <==> StrBefore(a[1..], b[1..]))
  {
    if a[0] == b[0] {
      if k: nat :| k <= |a| && k < |b| && a[..k] == b[..k] && (k == |a| || a[k] < b[k]) {
        assert k > 0;
        assert a[1..][..k - 1] == a[..k][1..] && b[1..][..k - 1] == b[..k][1..];
      }
      if k: nat :| k <= |a[1..]| && k < |b[1..]| && a[1..][..k] == b[1..][..k] && (k == |a[1..]| || a[1..][k] < b[1..][k]) {
        assert a[..k + 1] == [a[0]] + a[1..][..k] && b[..k + 1] == [b[0]] + b[1..][..k];
      }
    }
  }

  /** `partial_cmp` gives `Less` for a value that comes before the other, `Equal` for tied ones, and `Greater` in the third case. */
  lemma {:induction false} CmpIs(w: World, a: Value, b: Value)
    requires Known(w, a) && Known(w, b)
    ensures Cmp(a, b) == Some(Less) <==> Before(a, b)
    ensures Cmp(a, b) == Some(Equal) <==> Tied(a, b)
    ensures Cmp(a, b) == Some(Greater) <==> Before(b, a)
  {
    Orders(a, b);
    Orders(b, a);
    Antisymmetric(w, a, b);
    hide Cmp, Before, Tied, Known;
  }

  predicate Wrapped(a: Value, b: Value) {
    (a.Unique? && b.Unique?) || (a.Shared? && b.Shared?) || (a.SyncShared? && b.SyncShared?)
  }

  lemma {:induction false} Orders(a: Value, b: Value)
    ensures Cmp(a, b) == Some(Less) <==> Before(a, b)
    ensures Cmp(a, b) == Some(Equal) <==> Tied(a, b)
    decreases a, 1, 0
  {
    hide Cmp, Before, Tied;
    if a.Struct? && b.Struct? {
      StructsOrder(a, b);
    } else if Wrapped(a, b) {
      Orders(a.inner, b.inner);
      Unwrap(a, b);
    } else {
      OthersOrder(a, b);
    }
  }

  lemma Unwrap(a: Value, b: Value)
    requires Wrapped(a, b)
    ensures Cmp(a, b) == Cmp(a.inner, b.inner) && Before(a, b) == Before(a.inner, b.inner) && Tied(a, b) == Tied(a.inner, b.inner)
  {
  }

  lemma OthersOrder(a: Value, b: Value)
    requires !Wrapped(a, b) && !(a.Struct? && b.Struct?)
    ensures Cmp(a, b) == Some(Less) <==> Before(a, b)
    ensures Cmp(a, b) == Some(Equal) <==> Tied(a, b)
  {
    hide StrBefore, CmpStr;
    if a.Str? && b.Str? {
      StringsCompare(a.s, b.s);
    }
  }

  lemma {:induction false} StructsOrder(a: Value, b: Value)
    requires a.Struct? && b.Struct?
    ensures Cmp(a, b) == Some(Less) <==> Before(a, b)
    ensures Cmp(a, b) == Some(Equal) <==> Tied(a, b)
    decreases a, 0, |a.derives.order| + 1
  {
    hide FieldBefore, FieldTied, CmpFields;
    if OneOrder(a, b) {
      var order := a.derives.order;
      FieldsOrder(a, b, order, 0);
      assert order[0..] == order;
    }
  }

  /** The fields from number `n` on. */
  lemma {:induction false} FieldsOrder(a: Value, b: Value, order: seq<string>, n: nat)
    requires a.Struct? && b.Struct? && n <= |order|
    ensures CmpFields(a, b, order[n..]) == Some(Less) <==>
            exists k :: n <= k < |order| && FieldBefore(a, b, order[k]) && forall i :: n <= i < k ==> FieldTied(a, b, order[i])
    ensures CmpFields(a, b, order[n..]) == Some(Equal) <==> forall i :: n <= i < |order| ==> FieldTied(a, b, order[i])
    decreases a, 0, |order| - n
  {
    if n < |order| {
      assert order[n..][0] == order[n] && order[n..][1..] == order[n + 1..];
      var x, y := Get(a.fields, order[n]), Get(b.fields, order[n]);
      if x.Some? && y.Some? {
        Orders(x.value, y.value);
      }
      FieldsOrder(a, b, order, n + 1);
      hide Before, Tied, Cmp;
      if CmpFields(a, b, order[n..]) == Some(Less) && FieldTied(a, b, order[n]) {
        var k :| n + 1 <= k < |order| && FieldBefore(a, b, order[k]) && forall i :: n + 1 <= i < k ==> FieldTied(a, b, order[i]);
        assert forall i :: n <= i < k ==> FieldTied(a, b, order[i]);
      }
    }
  }
}

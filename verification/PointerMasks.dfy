/** The pointer masks that the emitter works out for structs, enum variants and closures
    (crates/llvm_poc/src/emit.rs): bit i of a mask tells the collector that word i of the object is a pointer. */
module PointerMasks {
  import opened BitWords
  import opened Wrappers

  // ---------------------------------------------------------------- the target's data layout

  /** The types of a field: every struct, enum, string and closure is a pointer. */
  datatype Ty = I64 | I1 | Ptr

  /** The bytes of a pointer and the alignment of a 64-bit integer. */
  datatype Target = Target(ptr: nat, long: nat)

  predicate IsTarget(t: Target) {
    t in {Target(4, 4), Target(4, 8), Target(8, 8)}
  }

  function Size(t: Target, ty: Ty): nat {
    match ty
    case I64 => 8
    case I1 => 1
    case Ptr => t.ptr
  }

  function Align(t: Target, ty: Ty): nat {
    match ty
    case I64 => t.long
    case I1 => 1
    case Ptr => t.ptr
  }

  /** `n` rounded up to the alignment `a`. */
  function Up(n: nat, a: nat): nat {
    if a == 8 then (n + 7) / 8 * 8 else if a == 4 then (n + 3) / 4 * 4 else n
  }

  /** Where the first `i` fields of a struct end. */
  function End(t: Target, tys: seq<Ty>, i: nat): nat
    requires i <= |tys|
    decreases i, 0
  {
    if i == 0 then 0 else Offset(t, tys, i - 1) + Size(t, tys[i - 1])
  }

  function Offset(t: Target, tys: seq<Ty>, i: nat): nat
    requires i < |tys|
    decreases i, 1
  {
    Up(End(t, tys, i), Align(t, tys[i]))
  }

  function MaxAlign(t: Target, tys: seq<Ty>): nat {
    if tys == [] then 1
    else
      var a, b := MaxAlign(t, tys[1..]), Align(t, tys[0]);
      if a < b then b else a
  }

  function StructSize(t: Target, tys: seq<Ty>): nat {
    Up(End(t, tys, |tys|), MaxAlign(t, tys))
  }

  // ---------------------------------------------------------------- objects

  datatype Field = Field(at: nat, ty: Ty)

  function StructFields(t: Target, tys: seq<Ty>): (r: seq<Field>) {
    seq(|tys|, i requires 0 <= i < |tys| => Field(Offset(t, tys, i), tys[i]))
  }

  /** The payload slots of a variant and the captures of a closure: 8 bytes apiece, after the tag or the code pointer. */
  function SlotFields(tys: seq<Ty>): seq<Field> {
    seq(|tys|, i requires 0 <= i < |tys| => Field(8 * (1 + i), tys[i]))
  }

  /** The word that byte `at` is in. */
  function WordOf(t: Target, at: nat): nat {
    if t.ptr == 4 then at / 4 else at / 8
  }

  /** A pointer field starts at word `j`. */
  ghost predicate PointerAt(t: Target, fields: seq<Field>, j: nat) {
    exists i :: 0 <= i < |fields| && fields[i].ty.Ptr? && fields[i].at == j * t.ptr
  }

  /** Field `f` has a byte in word `j`. */
  ghost predicate Touches(t: Target, f: Field, j: nat) {
    f.at < (j + 1) * t.ptr && j * t.ptr < f.at + Size(t, f.ty)
  }

  /** What the collector relies on: the object is one that a mask can describe, a bit is set exactly for a word that
      is a pointer field, such a word is inside the object and no other field has a byte in it. */
  ghost predicate Describes(t: Target, fields: seq<Field>, size: nat, mask: bv64) {
    && size <= 64 * t.ptr
    && (forall j: nat :: Bit(mask, j) <==> PointerAt(t, fields, j))
    && (forall j: nat :: Bit(mask, j) ==> (j + 1) * t.ptr <= size)
    && (forall j: nat, i :: Bit(mask, j) && 0 <= i < |fields| && Touches(t, fields[i], j) ==>
          fields[i].ty.Ptr? && fields[i].at == j * t.ptr)
  }

  // ---------------------------------------------------------------- the emitted helpers

  /** Pointers are aligned, fields do not overlap and lie inside the object. */
  ghost predicate LaidOut(t: Target, fields: seq<Field>, size: nat) {
    && (forall i :: 0 <= i < |fields| ==> fields[i].at + Size(t, fields[i].ty) <= size)
    && (forall i :: 0 <= i < |fields| && fields[i].ty.Ptr? ==> fields[i].at == WordOf(t, fields[i].at) * t.ptr)
    && forall i, k :: 0 <= i < k < |fields| ==> fields[i].at + Size(t, fields[i].ty) <= fields[k].at
  }

  /** The bit of a pointer field's word is set. */
  ghost predicate Marked(t: Target, fields: seq<Field>, j: nat) {
    exists i :: 0 <= i < |fields| && fields[i].ty.Ptr? && WordOf(t, fields[i].at) == j
  }

  lemma MarkedNext(t: Target, fields: seq<Field>, k: nat, mask: bv64, mask': bv64)
    requires k < |fields| && (fields[k].ty.Ptr? ==> WordOf(t, fields[k].at) < 64)
    requires forall j: nat :: Bit(mask, j) <==> Marked(t, fields[..k], j)
    requires mask' == if fields[k].ty.Ptr? then Or(mask, Shl(1, WordOf(t, fields[k].at))) else mask
    ensures forall j: nat :: Bit(mask', j) <==> Marked(t, fields[..k + 1], j)
  {
    hide Bit, Or, Shl, WordOf;
    assert fields[..k + 1] == fields[..k] + [fields[k]];
    forall j: nat
      ensures Bit(mask', j) <==> Marked(t, fields[..k + 1], j)
    {
      MarkedSplit(t, fields[..k], fields[k], j);
      if fields[k].ty.Ptr? {
        var w := WordOf(t, fields[k].at);
        OrBit(mask, Shl(1, w), j);
        OneBit(w, j);
      }
    }
  }

  lemma MarkedSplit(t: Target, fields: seq<Field>, f: Field, j: nat)
    ensures Marked(t, fields + [f], j) <==> Marked(t, fields, j) || (f.ty.Ptr? && WordOf(t, f.at) == j)
  {
    hide WordOf;
    var all := fields + [f];
    if Marked(t, fields, j) {
      var i :| 0 <= i < |fields| && fields[i].ty.Ptr? && WordOf(t, fields[i].at) == j;
      assert all[i] == fields[i];
    }
    assert all[|fields|] == f;
  }

  /** The helper of one object: the shifted bits of its pointer fields, one after the other. Shifting by 64 or more
      is undefined. */
  method Helper(t: Target, fields: seq<Field>) returns (mask: bv64)
    requires forall f :: f in fields && f.ty.Ptr? ==> WordOf(t, f.at) < 64
    ensures forall j: nat :: Bit(mask, j) <==> Marked(t, fields, j)
  {
    hide Bit, Or, Shl, WordOf, Marked;
    mask := 0;
    assert forall j: nat :: Bit(mask, j) <==> Marked(t, fields[..0], j) by {
      NoneMarked(t);
      assert fields[..0] == [];
    }
    for k := 0 to |fields|
      invariant forall j: nat :: Bit(mask, j) <==> Marked(t, fields[..k], j)
    {
      assert fields[k] in fields;
      ghost var before := mask;
      if fields[k].ty.Ptr? {
        mask := Or(mask, Shl(1, WordOf(t, fields[k].at)));
      }
      MarkedNext(t, fields, k, before, mask);
    }
    assert fields[..|fields|] == fields;
  }

  lemma NoneMarked(t: Target)
    ensures forall j: nat :: !Bit(0, j) && !Marked(t, [], j)
  {
    hide Bit;
    forall j: nat
      ensures !Bit(0, j)
    {
      ZeroBit(j);
    }
  }

  /** The mask argument of an allocation: the helper's result, or zero if no field is a pointer. */
  method MaskOf(t: Target, fields: seq<Field>, size: nat) returns (mask: bv64)
    requires IsTarget(t) && LaidOut(t, fields, size) && size <= 64 * t.ptr
    ensures Describes(t, fields, size, mask)
  {
    forall f | f in fields && f.ty.Ptr?
      ensures WordOf(t, f.at) < 64
    {
      PointersFit(t, fields, size, f);
    }
    hide Bit, WordOf, Marked, LaidOut, IsTarget, Describes;
    if exists i :: 0 <= i < |fields| && fields[i].ty.Ptr? {
      mask := Helper(t, fields);
    } else {
      mask := 0;
      NoMarks(t, fields);
    }
    MarksDescribe(t, fields, size, mask);
  }

  lemma PointersFit(t: Target, fields: seq<Field>, size: nat, f: Field)
    requires IsTarget(t) && LaidOut(t, fields, size) && size <= 64 * t.ptr && f in fields && f.ty.Ptr?
    ensures WordOf(t, f.at) < 64
  {
    var i :| 0 <= i < |fields| && fields[i] == f;
    assert fields[i].at + Size(t, fields[i].ty) <= size;
  }

  lemma NoMarks(t: Target, fields: seq<Field>)
    requires !exists i :: 0 <= i < |fields| && fields[i].ty.Ptr?
    ensures forall j: nat :: Bit(0, j) <==> Marked(t, fields, j)
  {
    hide Bit;
    NoneMarked(t);
  }

  lemma MarksDescribe(t: Target, fields: seq<Field>, size: nat, mask: bv64)
    requires IsTarget(t) && LaidOut(t, fields, size) && size <= 64 * t.ptr
    requires forall j: nat :: Bit(mask, j) <==> Marked(t, fields, j)
    ensures Describes(t, fields, size, mask)
  {
    hide Bit;
    forall j: nat
      ensures Bit(mask, j) <==> PointerAt(t, fields, j)
    {
      MarkedPointer(t, fields, size, j);
    }
    forall j: nat | Bit(mask, j)
      ensures (j + 1) * t.ptr <= size
      ensures forall i :: 0 <= i < |fields| && Touches(t, fields[i], j) ==> fields[i].ty.Ptr? && fields[i].at == j * t.ptr
    {
      OnlyPointer(t, fields, size, j);
    }
  }

  lemma MarkedPointer(t: Target, fields: seq<Field>, size: nat, j: nat)
    requires IsTarget(t) && LaidOut(t, fields, size)
    ensures Marked(t, fields, j) <==> PointerAt(t, fields, j)
  {
    if i :| 0 <= i < |fields| && fields[i].ty.Ptr? && WordOf(t, fields[i].at) == j {
      assert fields[i].at == j * t.ptr;
    }
    if i :| 0 <= i < |fields| && fields[i].ty.Ptr? && fields[i].at == j * t.ptr {
      assert WordOf(t, fields[i].at) == j;
    }
  }

  /** A pointer field is the only field with a byte in its word. */
  lemma OnlyPointer(t: Target, fields: seq<Field>, size: nat, j: nat)
    requires IsTarget(t) && LaidOut(t, fields, size) && PointerAt(t, fields, j)
    ensures (j + 1) * t.ptr <= size
    ensures forall i :: 0 <= i < |fields| && Touches(t, fields[i], j) ==> fields[i].ty.Ptr? && fields[i].at == j * t.ptr
  {
    var p :| 0 <= p < |fields| && fields[p].ty.Ptr? && fields[p].at == j * t.ptr;
    assert (j + 1) * t.ptr == fields[p].at + t.ptr;
    forall i | 0 <= i < |fields| && Touches(t, fields[i], j)
      ensures i == p
    {
      hide Size;
      assert fields[p].at + Size(t, fields[p].ty) == fields[p].at + t.ptr by {
        assert Size(t, Ptr) == t.ptr;
      }
    }
  }

  // ---------------------------------------------------------------- structs, variants and closures

  const MAX_STRUCT_FIELDS: nat := 32
  const MAX_VARIANT_FIELDS: nat := 31
  const MAX_CAPTURES: nat := 30

  /** Rounding up adds no more than is needed, and does not pass a multiple of 8. */
  lemma UpBound(n: nat, a: nat, m: nat)
    requires n <= 8 * m
    ensures n <= Up(n, a) <= 8 * m && (n == 8 * m ==> Up(n, a) == n)
  {
    var q, h := (n + 7) / 8, (n + 3) / 4;
    assert 8 * q <= n + 7 < 8 * q + 8 && 4 * h <= n + 3 < 4 * h + 4;
    assert q <= m && h <= 2 * m;
  }

  lemma UpAligned(n: nat)
    ensures Up(n, 4) / 4 * 4 == Up(n, 4) && Up(n, 8) / 8 * 8 == Up(n, 8)
  {
  }

  /** A field and the padding before it take at most 8 bytes. */
  lemma {:induction false} EndBound(t: Target, tys: seq<Ty>, i: nat)
    requires IsTarget(t) && i <= |tys|
    ensures End(t, tys, i) <= 8 * i
  {
    hide Up;
    if i > 0 {
      EndBound(t, tys, i - 1);
      UpBound(End(t, tys, i - 1), Align(t, tys[i - 1]), i - 1);
    }
  }

  lemma {:induction false} FieldsApart(t: Target, tys: seq<Ty>, i: nat, k: nat)
    requires i < k <= |tys|
    ensures Offset(t, tys, i) + Size(t, tys[i]) <= End(t, tys, k)
  {
    hide Up, Align;
    UpBound(End(t, tys, k - 1), Align(t, tys[k - 1]), End(t, tys, k - 1));
    if i < k - 1 {
      FieldsApart(t, tys, i, k - 1);
    }
  }

  lemma {:induction false} MaxAlignIs(t: Target, tys: seq<Ty>)
    requires IsTarget(t)
    ensures MaxAlign(t, tys) in {1, 4, 8}
  {
    if tys != [] {
      MaxAlignIs(t, tys[1..]);
    }
  }

  /** Byte `n` is at the first multiple of `a` from byte `e` on. */
  predicate FirstFrom(n: int, a: int, e: int)
    requires a > 0
  {
    n % a == 0 && e <= n < e + a
  }

  /** What a type of this alignment asks for: a flag can be anywhere, a pointer at a multiple of its width, an integer at
      one of the target's alignment for 64 bits. */
  predicate Asks(t: Target, ty: Ty, a: int) {
    (ty == I1 && a == 1) || (ty == Ptr && a == t.ptr) || (ty == I64 && a == t.long)
  }

  /** The data layout: the first field is at the start of the struct, each other one at the first place after the field
      before it that its type allows, and the size is the first one from the end of the last field on that is a
      multiple of the widest alignment. */
  lemma FieldPlaces(t: Target, tys: seq<Ty>)
    requires IsTarget(t) && tys != []
    ensures Offset(t, tys, 0) == 0
    ensures forall i, a :: 0 < i < |tys| && Asks(t, tys[i], a) ==>
              a > 0 && FirstFrom(Offset(t, tys, i), a, Offset(t, tys, i - 1) + match tys[i - 1] case I64 => 8 case I1 => 1 case Ptr => t.ptr)
    ensures exists widest :: widest > 0 && Widest(t, tys, widest) &&
              FirstFrom(StructSize(t, tys), widest,
                Offset(t, tys, |tys| - 1) + match tys[|tys| - 1] case I64 => 8 case I1 => 1 case Ptr => t.ptr)
  {
    assert Offset(t, tys, 0) == 0;
    hide Up, MaxAlign, FirstFrom, Widest;
    forall i, a | 0 < i < |tys| && Asks(t, tys[i], a)
      ensures a > 0 && FirstFrom(Offset(t, tys, i), a, Offset(t, tys, i - 1) + Size(t, tys[i - 1]))
    {
      UpIsFirst(End(t, tys, i), a);
    }
    WidestIs(t, tys);
    UpIsFirst(End(t, tys, |tys|), MaxAlign(t, tys));
  }

  /** The alignment that some field asks for, and no field asks for more. */
  ghost predicate Widest(t: Target, tys: seq<Ty>, widest: int) {
    && (exists i :: 0 <= i < |tys| && Asks(t, tys[i], widest))
    && forall i, a :: 0 <= i < |tys| && Asks(t, tys[i], a) ==> a <= widest
  }

  lemma UpIsFirst(e: nat, a: int)
    requires a in {1, 4, 8}
    ensures FirstFrom(Up(e, a), a, e)
  {
  }

  lemma {:induction false} WidestIs(t: Target, tys: seq<Ty>)
    requires IsTarget(t) && tys != []
    ensures MaxAlign(t, tys) in {1, 4, 8} && Widest(t, tys, MaxAlign(t, tys))
  {
    var widest := MaxAlign(t, tys);
    if |tys| > 1 {
      WidestIs(t, tys[1..]);
      hide IsTarget;
      if i :| 0 <= i < |tys[1..]| && Asks(t, tys[1..][i], MaxAlign(t, tys[1..])) {
        assert tys[i + 1] == tys[1..][i];
      }
      forall i, a | 0 <= i < |tys| && Asks(t, tys[i], a)
        ensures a <= widest
      {
        assert i > 0 ==> tys[i] == tys[1..][i - 1];
      }
    }
    assert Asks(t, tys[0], Align(t, tys[0]));
  }

  lemma StructLaidOut(t: Target, tys: seq<Ty>)
    requires IsTarget(t)
    ensures LaidOut(t, StructFields(t, tys), StructSize(t, tys)) && StructSize(t, tys) <= 8 * |tys|
  {
    var fields, size := StructFields(t, tys), StructSize(t, tys);
    MaxAlignIs(t, tys);
    EndBound(t, tys, |tys|);
    hide MaxAlign, End, Up;
    UpBound(End(t, tys, |tys|), MaxAlign(t, tys), |tys|);
    forall i | 0 <= i < |fields|
      ensures fields[i].at + Size(t, fields[i].ty) <= size
      ensures fields[i].ty.Ptr? ==> fields[i].at == WordOf(t, fields[i].at) * t.ptr
    {
      FieldsApart(t, tys, i, |tys|);
      UpAligned(End(t, tys, i));
    }
    forall i, k | 0 <= i < k < |fields|
      ensures fields[i].at + Size(t, fields[i].ty) <= fields[k].at
    {
      hide Size, Align;
      FieldsApart(t, tys, i, k);
      UpBound(End(t, tys, k), Align(t, tys[k]), End(t, tys, k));
    }
  }

  lemma SlotsLaidOut(t: Target, tys: seq<Ty>, slots: nat)
    requires IsTarget(t) && |tys| <= slots
    ensures LaidOut(t, SlotFields(tys), 8 * (1 + slots))
  {
  }

  /** The size and mask of a struct, which is refused if it has no fields or too many. */
  method StructMask(t: Target, tys: seq<Ty>) returns (r: Option<bv64>)
    requires IsTarget(t)
    ensures r.Some? <==> 0 < |tys| <= MAX_STRUCT_FIELDS
    ensures r.Some? ==> Describes(t, StructFields(t, tys), StructSize(t, tys), r.value)
  {
    if tys == [] || |tys| > MAX_STRUCT_FIELDS {
      return None;
    }
    StructLaidOut(t, tys);
    var mask := MaskOf(t, StructFields(t, tys), StructSize(t, tys));
    return Some(mask);
  }

  /** The mask of a variant of an enum whose widest variant has `slots` fields. */
  method VariantMask(t: Target, tys: seq<Ty>, slots: nat) returns (r: Option<bv64>)
    requires IsTarget(t) && |tys| <= slots
    ensures r.Some? <==> slots <= MAX_VARIANT_FIELDS
    ensures r.Some? ==> Describes(t, SlotFields(tys), 8 * (1 + slots), r.value)
  {
    if slots > MAX_VARIANT_FIELDS {
      return None;
    }
    SlotsLaidOut(t, tys, slots);
    var mask := MaskOf(t, SlotFields(tys), 8 * (1 + slots));
    return Some(mask);
  }

  /** The mask of a closure that captures variables of these types. */
  method ClosureMask(t: Target, tys: seq<Ty>) returns (r: Option<bv64>)
    requires IsTarget(t)
    ensures r.Some? <==> |tys| <= MAX_CAPTURES
    ensures r.Some? ==> Describes(t, SlotFields(tys), 8 * (1 + |tys|), r.value)
  {
    if 1 + |tys| > 31 {
      return None;
    }
    SlotsLaidOut(t, tys, |tys|);
    var mask := MaskOf(t, SlotFields(tys), 8 * (1 + |tys|));
    return Some(mask);
  }

  // ---------------------------------------------------------------- the limits

  lemma {:induction false} LongsEnd(t: Target, tys: seq<Ty>, i: nat)
    requires IsTarget(t) && i <= |tys| && forall ty :: ty in tys ==> ty == I64
    ensures End(t, tys, i) == 8 * i
  {
    hide Up;
    if i > 0 {
      LongsEnd(t, tys, i - 1);
      UpBound(End(t, tys, i - 1), Align(t, I64), i - 1);
      assert tys[i - 1] in tys;
    }
  }

  /** Structs of `n` fields can all be described by a mask, on every target, exactly up to the limit. */
  lemma StructLimit(n: nat)
    ensures (forall t, tys :: IsTarget(t) && |tys| == n ==> StructSize(t, tys) <= 64 * t.ptr) <==> n <= MAX_STRUCT_FIELDS
  {
    if n <= MAX_STRUCT_FIELDS {
      forall t, tys | IsTarget(t) && |tys| == n
        ensures StructSize(t, tys) <= 64 * t.ptr
      {
        hide StructFields, StructSize, LaidOut;
        StructLaidOut(t, tys);
      }
    } else {
      var t, tys := Target(4, 4), seq(n, _ => I64);
      LongsEnd(t, tys, n);
      hide Up, End, MaxAlign;
      UpBound(8 * n, MaxAlign(t, tys), n);
      assert StructSize(t, tys) >= 8 * n > 64 * t.ptr;
    }
  }
}

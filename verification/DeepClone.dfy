/** `Value::deep_clone` of the interpreter over an explicit heap (crates/core/src/interpreter/value.rs). */
module DeepClone {

  // ---------------------------------------------------------------- values in a heap

  type Ref = nat
  type Name = string

  /** What a cell belongs to; a struct carries its declaration's name. */
  datatype CellKind = List | Dict | Queue | Stack | Struct(typeName: Name)

  datatype AliasKind = Shared | SyncShared | Pool | InlineList | Linqerizer

  /** What holds its parts inline; the payload of an enum is positional or named. */
  datatype GroupKind = Tuple | Unique | Enum(typeName: Name, variant: Name, named: seq<Name>)

  /** `Plain` is a value with nothing behind it that can change: a number, a string, a function, a handle. */
  datatype Value =
    | Plain(data: nat)
    | Cell(kind: CellKind, ref: Ref)
    | Group(shape: GroupKind, items: seq<Value>)
    | Alias(alias: AliasKind, ref: Ref)

  /** The content of a cell. The keys and values of a dictionary take turns; a struct's fields are named. */
  datatype Content = Content(names: seq<Name>, items: seq<Value>)

  type Heap = seq<Content>

  /** No cell is nested in itself: at most `n` cells lie inside each other, not counting what is behind an alias. */
  ghost predicate Within(h: Heap, v: Value, n: nat)
    decreases n, v
  {
    match v
    case Plain(_) => true
    case Alias(_, ref) => ref < |h|
    case Cell(_, ref) => ref < |h| && n > 0 && forall x :: x in h[ref].items ==> Within(h, x, n - 1)
    case Group(_, items) => forall x :: x in items ==> Within(h, x, n)
  }

  ghost predicate AllWithin(h: Heap, items: seq<Value>, n: nat) {
    forall x :: x in items ==> Within(h, x, n)
  }

  // ---------------------------------------------------------------- the clone

  datatype Cloned = Cloned(h: Heap, value: Value)
  datatype ClonedAll = ClonedAll(h: Heap, items: seq<Value>)

  /** `deep_clone`: a cell is copied after its parts, and an alias stays an alias. */
  function Clone(h: Heap, v: Value, n: nat): (r: Cloned)
    requires Within(h, v, n)
    ensures h <= r.h
    decreases n, v, 0
  {
    match v
    case Plain(_) => Cloned(h, v)
    case Alias(_, _) => Cloned(h, v)
    case Group(shape, items) =>
      var r := CloneAll(h, items, n);
      Cloned(r.h, Group(shape, r.items))
    case Cell(kind, ref) =>
      var r := CloneAll(h, h[ref].items, n - 1);
      Cloned(r.h + [Content(h[ref].names, r.items)], Cell(kind, |r.h|))
  }

  function CloneAll(h: Heap, items: seq<Value>, n: nat): (r: ClonedAll)
    requires AllWithin(h, items, n)
    ensures h <= r.h && |r.items| == |items|
    decreases n, items, 1
  {
    if items == [] then ClonedAll(h, [])
    else
      var first := Clone(h, items[0], n);
      StillWithin(h, first.h, items[1..], n);
      var others := CloneAll(first.h, items[1..], n);
      ClonedAll(others.h, [first.value] + others.items)
  }

  lemma {:induction false} WithinGrows(h: Heap, h': Heap, v: Value, n: nat)
    requires h <= h' && Within(h, v, n)
    ensures Within(h', v, n)
    decreases n, v
  {
    match v
    case Plain(_) =>
    case Alias(_, _) =>
    case Cell(_, ref) =>
      forall x | x in h'[ref].items
        ensures Within(h', x, n - 1)
      {
        WithinGrows(h, h', x, n - 1);
      }
    case Group(_, items) =>
      forall x | x in items
        ensures Within(h', x, n)
      {
        WithinGrows(h, h', x, n);
      }
  }

  lemma StillWithin(h: Heap, h': Heap, items: seq<Value>, n: nat)
    requires h <= h' && AllWithin(h, items, n)
    ensures AllWithin(h', items, n)
  {
    forall x | x in items
      ensures Within(h', x, n)
    {
      WithinGrows(h, h', x, n);
    }
  }

  // ---------------------------------------------------------------- what a value looks like

  /** A value read through its cells; behind an alias only its identity counts. */
  datatype Tree =
    | Leaf(data: nat)
    | Node(kind: CellKind, names: seq<Name>, parts: seq<Tree>)
    | Parts(shape: GroupKind, parts: seq<Tree>)
    | Link(alias: AliasKind, ref: Ref)

  ghost function Own(h: Heap, v: Value, n: nat): Tree
    requires Within(h, v, n)
    decreases n, v, 0
  {
    match v
    case Plain(data) => Leaf(data)
    case Alias(alias, ref) => Link(alias, ref)
    case Cell(kind, ref) => Node(kind, h[ref].names, OwnAll(h, h[ref].items, n - 1))
    case Group(shape, items) => Parts(shape, OwnAll(h, items, n))
  }

  ghost function OwnAll(h: Heap, items: seq<Value>, n: nat): (r: seq<Tree>)
    requires AllWithin(h, items, n)
    decreases n, items, 1
  {
    if items == [] then [] else [Own(h, items[0], n)] + OwnAll(h, items[1..], n)
  }

  /** All cells of the value that are not behind an alias are at `base` or above. */
  ghost predicate From(h: Heap, v: Value, base: Ref, n: nat)
    decreases n, v
  {
    match v
    case Plain(_) => true
    case Alias(_, ref) => ref < |h|
    case Cell(_, ref) => base <= ref < |h| && n > 0 && forall x :: x in h[ref].items ==> From(h, x, base, n - 1)
    case Group(_, items) => forall x :: x in items ==> From(h, x, base, n)
  }

  // ---------------------------------------------------------------- reading depends on the cells read

  /** The cells of `h` from `base` on are unchanged in `h'`, which may have more. */
  ghost predicate SameFrom(h: Heap, h': Heap, base: Ref) {
    base <= |h| <= |h'| && h[base..] == h'[base..|h|]
  }

  lemma {:induction false} OwnSame(h: Heap, h': Heap, v: Value, n: nat)
    requires Within(h, v, n) && h <= h'
    ensures Within(h', v, n) && Own(h', v, n) == Own(h, v, n)
    decreases n, v, 0
  {
    WithinGrows(h, h', v, n);
    match v
    case Plain(_) =>
    case Alias(_, _) =>
    case Cell(_, ref) =>
      assert h'[ref] == h[ref];
      OwnAllSame(h, h', h[ref].items, n - 1);
    case Group(_, items) => OwnAllSame(h, h', items, n);
  }

  lemma {:induction false} OwnAllSame(h: Heap, h': Heap, items: seq<Value>, n: nat)
    requires AllWithin(h, items, n) && h <= h'
    ensures AllWithin(h', items, n) && OwnAll(h', items, n) == OwnAll(h, items, n)
    decreases n, items, 1
  {
    StillWithin(h, h', items, n);
    if items != [] {
      OwnSame(h, h', items[0], n);
      OwnAllSame(h, h', items[1..], n);
    }
  }

  lemma {:induction false} FromGrows(h: Heap, h': Heap, v: Value, base: Ref, n: nat)
    requires h <= h' && From(h, v, base, n)
    ensures From(h', v, base, n)
    decreases n, v
  {
    match v
    case Plain(_) =>
    case Alias(_, _) =>
    case Cell(_, ref) =>
      forall x | x in h'[ref].items
        ensures From(h', x, base, n - 1)
      {
        FromGrows(h, h', x, base, n - 1);
      }
    case Group(_, items) =>
      forall x | x in items
        ensures From(h', x, base, n)
      {
        FromGrows(h, h', x, base, n);
      }
  }

  lemma {:induction false} FromLower(h: Heap, v: Value, base: Ref, low: Ref, n: nat)
    requires low <= base && From(h, v, base, n)
    ensures From(h, v, low, n)
    decreases n, v
  {
    match v
    case Plain(_) =>
    case Alias(_, _) =>
    case Cell(_, ref) =>
      forall x | x in h[ref].items
        ensures From(h, x, low, n - 1)
      {
        FromLower(h, x, base, low, n - 1);
      }
    case Group(_, items) =>
      forall x | x in items
        ensures From(h, x, low, n)
      {
        FromLower(h, x, base, low, n);
      }
  }

  // ---------------------------------------------------------------- the clone is equal and fresh

  /** The clone reads like the original, and no cell of it existed before. */
  lemma {:induction false} CloneIsFresh(h: Heap, v: Value, n: nat)
    requires Within(h, v, n)
    ensures var r := Clone(h, v, n);
            From(r.h, r.value, |h|, n) && Within(r.h, r.value, n) && Own(r.h, r.value, n) == Own(h, v, n)
    decreases n, v, 0
  {
    match v
    case Plain(_) =>
    case Alias(_, _) =>
    case Group(_, items) => CloneAllFresh(h, items, n);
    case Cell(kind, ref) =>
      var items := h[ref].items;
      CloneAllFresh(h, items, n - 1);
      var r := CloneAll(h, items, n - 1);
      var h' := r.h + [Content(h[ref].names, r.items)];
      OwnAllSame(r.h, h', r.items, n - 1);
      forall x | x in r.items
        ensures From(h', x, |h|, n - 1)
      {
        FromGrows(r.h, h', x, |h|, n - 1);
      }
      assert h'[|r.h|].items == r.items;
  }

  lemma {:induction false} CloneAllFresh(h: Heap, items: seq<Value>, n: nat)
    requires AllWithin(h, items, n)
    ensures var r := CloneAll(h, items, n);
            && (forall x :: x in r.items ==> From(r.h, x, |h|, n))
            && AllWithin(r.h, r.items, n) && OwnAll(r.h, r.items, n) == OwnAll(h, items, n)
    decreases n, items, 1
  {
    if items != [] {
      var first := Clone(h, items[0], n);
      CloneIsFresh(h, items[0], n);
      OwnAllSame(h, first.h, items[1..], n);
      CloneAllFresh(first.h, items[1..], n);
      var others := CloneAll(first.h, items[1..], n);
      OwnSame(first.h, others.h, first.value, n);
      FromGrows(first.h, others.h, first.value, |h|, n);
      forall x | x in others.items
        ensures From(others.h, x, |h|, n)
      {
        FromLower(others.h, x, |first.h|, |h|, n);
      }
      var all := [first.value] + others.items;
      assert all[1..] == others.items;
    }
  }

  // ---------------------------------------------------------------- separation

  /** Whatever is written to the cells that a clone created, the original reads as before. */
  lemma OriginalKept(h: Heap, v: Value, n: nat, after: Heap)
    requires Within(h, v, n) && |after| >= |h| && after[..|h|] == Clone(h, v, n).h[..|h|]
    ensures Within(after, v, n) && Own(after, v, n) == Own(h, v, n)
  {
    assert h <= after;
    OwnSame(h, after, v, n);
  }

  lemma {:induction false} OwnFrom(h: Heap, h': Heap, v: Value, base: Ref, n: nat)
    requires SameFrom(h, h', base) && From(h, v, base, n) && Within(h, v, n)
    ensures Within(h', v, n) && Own(h', v, n) == Own(h, v, n)
    decreases n, v, 0
  {
    match v
    case Plain(_) =>
    case Alias(_, _) =>
    case Cell(_, ref) =>
      assert h'[ref] == h'[base..|h|][ref - base] == h[base..][ref - base] == h[ref];
      OwnAllFrom(h, h', h[ref].items, base, n - 1);
    case Group(_, items) => OwnAllFrom(h, h', items, base, n);
  }

  lemma {:induction false} OwnAllFrom(h: Heap, h': Heap, items: seq<Value>, base: Ref, n: nat)
    requires SameFrom(h, h', base) && (forall x :: x in items ==> From(h, x, base, n)) && AllWithin(h, items, n)
    ensures AllWithin(h', items, n) && OwnAll(h', items, n) == OwnAll(h, items, n)
    decreases n, items, 1
  {
    if items != [] {
      OwnFrom(h, h', items[0], base, n);
      OwnAllFrom(h, h', items[1..], base, n);
      assert items == [items[0]] + items[1..];
    }
  }

  /** Whatever is written to the cells that existed before, the clone reads as the original did when it was cloned. */
  lemma CloneKept(h: Heap, v: Value, n: nat, after: Heap)
    requires Within(h, v, n) && SameFrom(Clone(h, v, n).h, after, |h|)
    ensures var copy := Clone(h, v, n).value;
            Within(after, copy, n) && Own(after, copy, n) == Own(h, v, n)
  {
    CloneIsFresh(h, v, n);
    OwnFrom(Clone(h, v, n).h, after, Clone(h, v, n).value, |h|, n);
  }

  // ---------------------------------------------------------------- what is displayed

  /** All references lead to cells of the heap. */
  ghost predicate Inside(v: Value, size: nat) {
    match v
    case Plain(_) => true
    case Alias(_, ref) => ref < size
    case Cell(_, ref) => ref < size
    case Group(_, items) => forall x :: x in items ==> Inside(x, size)
  }

  ghost predicate AllInside(items: seq<Value>, size: nat) {
    forall x :: x in items ==> Inside(x, size)
  }

  ghost predicate Closed(h: Heap) {
    forall i :: 0 <= i < |h| ==> AllInside(h[i].items, |h|)
  }

  datatype Shown =
    | Deeper
    | Data(data: nat)
    | InCell(kind: CellKind, names: seq<Name>, parts: seq<Shown>)
    | InGroup(shape: GroupKind, parts: seq<Shown>)
    | Behind(alias: AliasKind, names: seq<Name>, parts: seq<Shown>)

  /** What is to be seen of a value down to depth `k`, also behind aliases, whose identity does not show. */
  ghost function Show(h: Heap, v: Value, k: nat): Shown
    requires Closed(h) && Inside(v, |h|)
    decreases k, v, 0
  {
    match v
    case Plain(data) => Data(data)
    case Group(shape, items) => InGroup(shape, ShowAll(h, items, k))
    case Cell(kind, ref) => if k == 0 then Deeper else InCell(kind, h[ref].names, ShowAll(h, h[ref].items, k - 1))
    case Alias(alias, ref) => if k == 0 then Deeper else Behind(alias, h[ref].names, ShowAll(h, h[ref].items, k - 1))
  }

  ghost function ShowAll(h: Heap, items: seq<Value>, k: nat): seq<Shown>
    requires Closed(h) && AllInside(items, |h|)
    decreases k, items, 1
  {
    if items == [] then [] else [Show(h, items[0], k)] + ShowAll(h, items[1..], k)
  }

  lemma {:induction false} InsideGrows(v: Value, size: nat, more: nat)
    requires Inside(v, size) && size <= more
    ensures Inside(v, more)
  {
    if v.Group? {
      AllInsideGrows(v.items, size, more);
    }
  }

  lemma {:induction false} AllInsideGrows(items: seq<Value>, size: nat, more: nat)
    requires AllInside(items, size) && size <= more
    ensures AllInside(items, more)
  {
    forall x | x in items
      ensures Inside(x, more)
    {
      InsideGrows(x, size, more);
    }
  }

  lemma {:induction false} ShowSame(h: Heap, h': Heap, v: Value, k: nat)
    requires Closed(h) && Closed(h') && h <= h' && Inside(v, |h|)
    ensures Inside(v, |h'|) && Show(h', v, k) == Show(h, v, k)
    decreases k, v, 0
  {
    InsideGrows(v, |h|, |h'|);
    match v
    case Plain(_) =>
    case Group(_, items) => ShowAllSame(h, h', items, k);
    case Cell(_, ref) =>
      if k > 0 {
        ShowAllSame(h, h', h[ref].items, k - 1);
      }
    case Alias(_, ref) =>
      if k > 0 {
        ShowAllSame(h, h', h[ref].items, k - 1);
      }
  }

  lemma {:induction false} ShowAllSame(h: Heap, h': Heap, items: seq<Value>, k: nat)
    requires Closed(h) && Closed(h') && h <= h' && AllInside(items, |h|)
    ensures AllInside(items, |h'|) && ShowAll(h', items, k) == ShowAll(h, items, k)
    decreases k, items, 1
  {
    AllInsideGrows(items, |h|, |h'|);
    if items != [] {
      ShowSame(h, h', items[0], k);
      ShowAllSame(h, h', items[1..], k);
    }
  }

  lemma ClosedNext(h: Heap, c: Content)
    requires Closed(h) && AllInside(c.items, |h|)
    ensures Closed(h + [c])
  {
    forall i | 0 <= i < |h + [c]|
      ensures AllInside((h + [c])[i].items, |h| + 1)
    {
      AllInsideGrows((h + [c])[i].items, |h|, |h| + 1);
    }
  }

  /** The clone is displayed like the original, whatever the depth of the display. */
  lemma {:induction false} CloneShows(h: Heap, v: Value, n: nat, k: nat)
    requires Closed(h) && Inside(v, |h|) && Within(h, v, n)
    ensures var r := Clone(h, v, n);
            Closed(r.h) && Inside(r.value, |r.h|) && Show(r.h, r.value, k) == Show(h, v, k)
    decreases n, v, 0
  {
    match v
    case Plain(_) =>
    case Alias(_, _) =>
    case Group(_, items) => CloneAllShows(h, items, n, k);
    case Cell(kind, ref) =>
      var items := h[ref].items;
      CloneAllShows(h, items, n - 1, if k == 0 then 0 else k - 1);
      var r := CloneAll(h, items, n - 1);
      var c := Content(h[ref].names, r.items);
      ClosedNext(r.h, c);
      if k > 0 {
        ShowAllSame(r.h, r.h + [c], r.items, k - 1);
      }
  }

  lemma {:induction false} CloneAllShows(h: Heap, items: seq<Value>, n: nat, k: nat)
    requires Closed(h) && AllInside(items, |h|) && AllWithin(h, items, n)
    ensures var r := CloneAll(h, items, n);
            Closed(r.h) && AllInside(r.items, |r.h|) && ShowAll(r.h, r.items, k) == ShowAll(h, items, k)
    decreases n, items, 1
  {
    if items != [] {
      var first := Clone(h, items[0], n);
      CloneShows(h, items[0], n, k);
      StillWithin(h, first.h, items[1..], n);
      AllInsideGrows(items[1..], |h|, |first.h|);
      CloneAllShows(first.h, items[1..], n, k);
      var others := CloneAll(first.h, items[1..], n);
      ShowSame(first.h, others.h, first.value, k);
      ShowAllSame(h, first.h, items[1..], k);
      var all := [first.value] + others.items;
      assert all[1..] == others.items;
    }
  }
}

/** Slots: opening a span, finding a free slot in it, and handing it out zeroed. */
module GcAlloc {
  import opened Wrappers
  import opened BitWords
  import opened BitTable
  import opened GcHeap
  import opened GcState
  import opened GcSweep
  import opened GcCollect

  // ---------------------------------------------------------------- what an allocation may change

  ghost predicate SameMem(mem: seq<Word>, mem': seq<Word>, at: nat, n: nat) {
    |mem'| == |mem| && forall w: nat :: at <= w < at + n && w < |mem| ==> mem'[w] == mem[w]
  }

  /** The object is where it was, and its words are what they were. */
  ghost predicate SameObject(h: Heap, h': Heap, o: Obj) {
    SamePlace(h, h', o) && SameMem(h.mem, h'.mem, Start(h, o), Extent(h, o))
  }

  /** The same objects are allocated, and they are unchanged. */
  ghost predicate SameObjects(h: Heap, h': Heap) {
    && Shape(h) && Shape(h') && h'.base == h.base && h'.bits == h.bits && |h'.spans| == |h.spans|
    && forall p :: (Allocated(h', p) <==> Allocated(h, p)) && (Allocated(h, p) ==> SameObject(h, h', p))
  }

  /** One more object is allocated; all others are unchanged. */
  ghost predicate Grew(h: Heap, h': Heap, o: Obj) {
    && Sound(h) && Sound(h') && h'.base == h.base && h'.bits == h.bits && |h'.spans| == |h.spans|
    && Allocated(h', o) && !Allocated(h, o)
    && forall p :: (p != o ==> (Allocated(h', p) <==> Allocated(h, p))) && (Allocated(h, p) ==> SameObject(h, h', p))
  }

  lemma SameObjectTrans(a: Heap, b: Heap, c: Heap, p: Obj)
    requires SameObject(a, b, p) && SameObject(b, c, p)
    ensures SameObject(a, c, p)
  {
    PlacesTrans(a, b, c, p);
    hide SamePlace;
  }

  lemma SameThenGrew(a: Heap, b: Heap, c: Heap, o: Obj)
    requires Sound(a) && SameObjects(a, b) && Grew(b, c, o)
    ensures Grew(a, c, o)
  {
    forall p | Allocated(a, p)
      ensures SameObject(a, c, p)
    {
      SameObjectTrans(a, b, c, p);
    }
    hide Sound, SameObject, Allocated;
  }

  lemma SameTrans(a: Heap, b: Heap, c: Heap)
    requires SameObjects(a, b) && SameObjects(b, c)
    ensures SameObjects(a, c)
  {
    forall p | Allocated(a, p)
      ensures SameObject(a, c, p)
    {
      SameObjectTrans(a, b, c, p);
    }
    hide Shape, SameObject, Allocated;
  }

  lemma SameRefl(h: Heap)
    requires Sound(h)
    ensures SameObjects(h, h)
  {
    forall p | Allocated(h, p)
      ensures SameObject(h, h, p)
    {
    }
    hide SpansOk, SameObject, Allocated;
  }

  // ---------------------------------------------------------------- opening a span

  function SmallSpan(s: Span, cls: nat, isNew: bool): Span
    requires cls < NUM_CLASSES
  {
    var e := CLASS_SIZE[cls];
    Span(Small, cls, !isNew, s.noscan, e, if e > 0 then SPAN_SIZE / e else 0, 0, s.runLen, s.headIdx, s.objBytes, NO_BITS, NO_BITS)
  }

  /** Span `i` was free, or the first that was never used, and holds slots now. */
  ghost predicate Opened(h: Heap, h': Heap, i: nat, cls: nat) {
    && cls < NUM_CLASSES && i < |h.spans| && h.used <= |h.spans| && i <= h.used && h.spans[i].state == Free
    && h' == h.(spans := h.spans[i := SmallSpan(h.spans[i], cls, i == h.used)], used := if i == h.used then h.used + 1 else h.used)
  }

  lemma NoBitsSet(k: nat)
    requires k < SLOTS
    ensures !Has(NO_BITS, k)
  {
    ZeroBit(k % 64);
  }

  lemma SmallSpanOk(s: Span, cls: nat, isNew: bool)
    requires cls < NUM_CLASSES
    ensures SmallOk(SmallSpan(s, cls, isNew)) && NoMarks(SmallSpan(s, cls, isNew)) && TableOk(SmallSpan(s, cls, isNew))
    ensures HasRoom(SmallSpan(s, cls, isNew)) && SpanBytes(SmallSpan(s, cls, isNew)) == 0
  {
    forall k: nat | k < SLOTS
      ensures !Has(NO_BITS, k)
    {
      NoBitsSet(k);
    }
    ClassSizes(cls);
    hide Has, SlotBytes;
    CountFull(NO_BITS, SLOTS);
    CountFull(NO_BITS, SPAN_SIZE / CLASS_SIZE[cls]);
    NoBytes(CLASS_SIZE[cls]);
  }

  /** Opening a free span breaks no run. */
  lemma OpenedSpans(h: Heap, h': Heap, i: nat, cls: nat)
    requires Sound(h) && Opened(h, h', i, cls)
    ensures SpansOk(h'.spans, h'.used)
  {
    SmallSpanOk(h.spans[i], cls, i == h.used);
    hide Has, SmallOk;
    forall j: nat | j < h'.used
      ensures SpanOk(h'.spans, j, h'.used)
    {
      if j != i {
        assert SpanOk(h.spans, j, h.used);
        match h.spans[j].state {
          case Large =>
            forall k: nat | j < k < j + h'.spans[j].runLen
              ensures h'.spans[k].state == Cont && h'.spans[k].headIdx == j
            {
              assert h.spans[k].state == Cont;
            }
          case Cont => assert h'.spans[h.spans[j].headIdx] == h.spans[h.spans[j].headIdx];
          case _ =>
        }
      }
    }
  }

  lemma OpenedShape(h: Heap, h': Heap, i: nat, cls: nat)
    requires Sound(h) && Opened(h, h', i, cls)
    ensures Sound(h') && Shape(h')
  {
    OpenedSpans(h, h', i, cls);
    SmallSpanOk(h.spans[i], cls, i == h.used);
    hide SpansOk, SmallSpan, SmallOk, Has, NoMarks;
  }

  lemma OpenedObjects(h: Heap, h': Heap, i: nat, cls: nat)
    requires Sound(h) && Opened(h, h', i, cls)
    ensures SameObjects(h, h')
  {
    OpenedShape(h, h', i, cls);
    forall p
      ensures Allocated(h', p) <==> Allocated(h, p)
      ensures Allocated(h, p) ==> SameObject(h, h', p)
    {
      if p.span == i && p.slot < SLOTS {
        NoBitsSet(p.slot);
      }
      hide Has, Sound;
    }
  }

  lemma OpenedHeap(h: Heap, h': Heap, i: nat, cls: nat)
    requires HeapOk(h) && Opened(h, h', i, cls)
    ensures HeapOk(h')
  {
    HeapParts(h);
    HeapParts(h');
    OpenedShape(h, h', i, cls);
    SmallSpanOk(h.spans[i], cls, i == h.used);
    OpenedMarks(h, h', i, cls);
    OpenedZero(h, h', i, cls);
  }

  lemma OpenedMarks(h: Heap, h': Heap, i: nat, cls: nat)
    requires Sound(h) && MarksClear(h.spans) && NoscanClear(h) && Opened(h, h', i, cls)
    ensures Shape(h') && MarksClear(h'.spans) && NoscanClear(h')
  {
    OpenedShape(h, h', i, cls);
    SmallSpanOk(h.spans[i], cls, i == h.used);
    hide SpansOk, Shape, SmallOk, NoMarks, NoPointers, Has;
  }

  lemma OpenedZero(h: Heap, h': Heap, i: nat, cls: nat)
    requires Sound(h) && ZeroOk(h) && Opened(h, h', i, cls)
    ensures Shape(h') && ZeroOk(h')
  {
    OpenedShape(h, h', i, cls);
    forall j: nat | j < h'.used && h'.spans[j].state == Small && !h'.spans[j].needzero
      ensures SlotsZero(h', j)
    {
      if j == i {
        FreshZero(h, h', i, cls);
      } else {
        assert SlotsZero(h, j);
      }
      hide Has, SpansOk;
    }
    hide Has, SpansOk, SlotsZero;
  }

  lemma FreshZero(h: Heap, h': Heap, i: nat, cls: nat)
    requires Sound(h) && ZeroOk(h) && Opened(h, h', i, cls) && i == h.used
    ensures SlotsZero(h', i)
  {
    SmallSpanOk(h.spans[i], cls, true);
    hide Has, SpansOk, SmallOk, ZeroAt, SlotStart, CLASS_SIZE;
    forall k: nat | k < h'.spans[i].nelems
      ensures ZeroAt(h'.mem, SlotStart(h'.spans[i].elem, i, k), h'.spans[i].elem / 8)
    {
      SlotInSpan(cls, i, k);
      ZeroPart(h.mem, SPAN_WORDS * i, |h.mem|, SlotStart(CLASS_SIZE[cls], i, k), CLASS_SIZE[cls] / 8);
    }
  }

  lemma ZeroPart(mem: seq<Word>, a: nat, m: nat, b: nat, n: nat)
    requires ZeroAt(mem, a, m) && a <= b && b + n <= a + m
    ensures ZeroAt(mem, b, n)
  {
  }

  // ---------------------------------------------------------------- the lists

  /** All but the last of a list without repetitions. */
  lemma Init(list: seq<nat>)
    requires |list| > 0 && forall a, b :: 0 <= a < b < |list| ==> list[a] != list[b]
    ensures var n := |list| - 1;
            && (forall x: nat :: x in list[..n] <==> x in list && x != list[n])
            && forall a, b :: 0 <= a < b < n ==> list[..n][a] != list[..n][b]
  {
    var n := |list| - 1;
    forall x: nat
      ensures x in list[..n] <==> x in list && x != list[n]
    {
      if x in list && x != list[n] {
        var k :| 0 <= k < |list| && list[k] == x;
        assert list[..n][k] == x;
      }
      if x in list[..n] {
        var k :| 0 <= k < n && list[..n][k] == x;
        assert list[k] == x;
      }
    }
  }

  lemma PopStale(free: seq<nat>, spans: seq<Span>, used: nat)
    requires FreeCover(free, spans, used) && |free| > 0
    ensures free[|free| - 1] < used <= |spans|
    ensures spans[free[|free| - 1]].state != Free ==> FreeCover(free[..|free| - 1], spans, used)
  {
    assert free[|free| - 1] in free;
    Init(free);
  }

  lemma PopFree(free: seq<nat>, h: Heap, h': Heap, i: nat, cls: nat)
    requires FreeCover(free, h.spans, h.used) && |free| > 0 && free[|free| - 1] == i < h.used && Opened(h, h', i, cls)
    ensures FreeCover(free[..|free| - 1], h'.spans, h'.used)
  {
    SmallState(h.spans[i], cls, false);
    hide SmallSpan;
    Init(free);
  }

  lemma SmallState(s: Span, cls: nat, isNew: bool)
    requires cls < NUM_CLASSES
    ensures SmallSpan(s, cls, isNew).state == Small && SmallSpan(s, cls, isNew).cls == cls
  {
  }

  /** With no free span left, the free stack may be empty. */
  lemma GrowFree(h: Heap, h': Heap, cls: nat)
    requires FreeCover([], h.spans, h.used) && h.used < |h.spans| && Opened(h, h', h.used, cls)
    ensures FreeCover([], h'.spans, h'.used) && forall j: nat :: j < h.used ==> h.spans[j].state != Free
  {
    forall j: nat | j < h.used
      ensures h.spans[j].state != Free
    {
      var none: seq<nat> := [];
      assert h.spans[j].state == Free ==> j in none;
    }
    SmallState(h.spans[h.used], cls, true);
    hide SmallSpan;
  }

  /** Opening a span changes no list of spans with slots. */
  lemma OpenedLists(h: Heap, h': Heap, i: nat, cls: nat, cur: seq<Option<nat>>, partial: seq<seq<nat>>)
    requires Opened(h, h', i, cls) && CurOk(cur, h.spans, h.used) && PartialsOk(partial, cur, h.spans, h.used)
    ensures CurOk(cur, h'.spans, h'.used) && PartialsOk(partial, cur, h'.spans, h'.used)
    ensures forall c: nat :: c < NUM_CLASSES ==> i !in partial[c] && cur[c] != Some(i)
    ensures NonFree(h'.spans, h'.used) == NonFree(h.spans, h.used) + 1
    ensures AllocBytes(h'.spans, h'.used) == AllocBytes(h.spans, h.used)
  {
    SmallState(h.spans[i], cls, i == h.used);
    SmallSpanOk(h.spans[i], cls, i == h.used);
    hide SmallSpan, HasRoom, SpanBytes, SmallOk, NoMarks, NonFree, AllocBytes;
    OpenedCounts(h, h', i, cls);
    forall c: nat | c < NUM_CLASSES
      ensures PartialOk(partial[c], c, cur[c], h'.spans, h'.used) && i !in partial[c] && cur[c] != Some(i)
    {
      assert PartialOk(partial[c], c, cur[c], h.spans, h.used);
    }
  }

  lemma OpenedCounts(h: Heap, h': Heap, i: nat, cls: nat)
    requires Opened(h, h', i, cls)
    ensures NonFree(h'.spans, h'.used) == NonFree(h.spans, h.used) + 1
    ensures AllocBytes(h'.spans, h'.used) == AllocBytes(h.spans, h.used)
  {
    hide SmallSpan, HasRoom, SpanBytes, SmallOk, NoMarks, TableOk;
    SmallState(h.spans[i], cls, i == h.used);
    SmallSpanOk(h.spans[i], cls, i == h.used);
    FreeBytes(h.spans[i]);
    NonFreeSet(h.spans, i, h'.spans[i], h.used);
    BytesSet(h.spans, i, h'.spans[i], h.used);
  }

  lemma FreeBytes(s: Span)
    requires s.state == Free
    ensures SpanBytes(s) == 0
  {
  }

  /** `new_span`: a free span is opened, and heap that was never used only when no span is free. */
  method NewSpan(g: Gc, cls: nat) returns (r: Option<nat>)
    requires Apart(g) && HeapOk(g.H()) && Listed(g) && cls < NUM_CLASSES
    modifies g`used, g`inUse, g`freeSpans, g.spans
    ensures r.Some? ==> Opened(old(g.H()), g.H(), r.value, cls) && HeapOk(g.H()) && Listed(g)
    ensures r.Some? ==> AllocBytes(g.spans[..], g.used) == AllocBytes(old(g.spans[..]), old(g.used))
    ensures r.Some? ==> forall c: nat :: c < NUM_CLASSES && c < |g.partial| ==> r.value !in g.partial[c]
    ensures r.None? ==> old(g.used) == g.spans.Length
    ensures r.None? || r.value == old(g.used) ==> forall j: nat :: j < old(g.used) ==> old(g.spans[..])[j].state != Free
  {
    hide HeapOk, FreeCover, CurOk, PartialsOk, NonFree, AllocBytes, SmallSpan;
    ghost var h := g.H();
    var found := None;
    while g.freeSpans != [] && found.None?
      invariant g.H() == h && g.inUse == old(g.inUse) && FreeCover(g.freeSpans, h.spans, h.used) && g.used <= g.spans.Length
      decreases |g.freeSpans|, found.None?
    {
      var top := |g.freeSpans| - 1;
      var c := g.freeSpans[top];
      PopStale(g.freeSpans, h.spans, h.used);
      if g.spans[c].state == Free {
        found := Some(c);
        break;
      }
      g.freeSpans := g.freeSpans[..top];
    }
    if found.None? && g.used == g.spans.Length {
      NoneFree(h.spans, h.used);
      return None;
    }
    ghost var free := g.freeSpans;
    var i := if found.Some? then found.value else g.used;
    SpansFree(h);
    g.spans[i] := SmallSpan(g.spans[i], cls, found.None?);
    g.inUse := g.inUse + 1;
    if found.Some? {
      g.freeSpans := g.freeSpans[..|g.freeSpans| - 1];
    } else {
      g.used := g.used + 1;
    }
    assert Opened(h, g.H(), i, cls);
    if found.Some? {
      PopFree(free, h, g.H(), i, cls);
    } else {
      GrowFree(h, g.H(), cls);
    }
    OpenedLists(h, g.H(), i, cls, g.cur, g.partial);
    OpenedHeap(h, g.H(), i, cls);
    r := Some(i);
  }

  lemma NoneFree(spans: seq<Span>, used: nat)
    requires FreeCover([], spans, used)
    ensures forall j: nat :: j < used ==> spans[j].state != Free
  {
    forall j: nat | j < used
      ensures spans[j].state != Free
    {
      var none: seq<nat> := [];
      assert spans[j].state == Free ==> j in none;
    }
  }

  lemma SpansFree(h: Heap)
    requires HeapOk(h)
    ensures forall i: nat :: h.used <= i < |h.spans| ==> h.spans[i].state == Free
  {
    hide MarksClear, ZeroOk, NoscanClear, SpanOk;
  }

  // ---------------------------------------------------------------- taking a slot

  /** Slot `k` of span `i`, the first free one, is taken; its words are zero and no other word has changed. */
  ghost predicate Taken(h: Heap, h': Heap, i: nat, k: nat) {
    && i < h.used <= |h.spans| && h.spans[i].state == Small && TableOk(h.spans[i]) && k < h.spans[i].nelems && k < SLOTS
    && !Has(h.spans[i].alloc, k) && (forall j: nat :: j < k ==> Has(h.spans[i].alloc, j))
    && h' == h.(spans := h.spans[i := h.spans[i].(alloc := SetBit(h.spans[i].alloc, k), freeindex := k + 1)], mem := h'.mem)
    && SameOutside(h.mem, h'.mem, SlotStart(h.spans[i].elem, i, k), h.spans[i].elem / 8)
    && ZeroAt(h'.mem, SlotStart(h.spans[i].elem, i, k), h.spans[i].elem / 8)
  }

  ghost predicate SameOutside(mem: seq<Word>, mem': seq<Word>, at: nat, n: nat) {
    |mem'| == |mem| && forall w: nat :: w < |mem| && !(at <= w < at + n) ==> mem'[w] == mem[w]
  }

  /** Writing zeros keeps zeros. */
  lemma ZeroKept(mem: seq<Word>, mem': seq<Word>, at: nat, n: nat, a: nat, m: nat)
    requires SameOutside(mem, mem', at, n) && ZeroAt(mem', at, n) && ZeroAt(mem, a, m)
    ensures ZeroAt(mem', a, m)
  {
  }

  lemma TakenSmall(s: Span, k: nat)
    requires SmallOk(s) && k < s.nelems && k < SLOTS && forall j: nat :: j < k ==> Has(s.alloc, j)
    ensures SmallOk(s.(alloc := SetBit(s.alloc, k), freeindex := k + 1))
    ensures forall j: nat :: j < SLOTS ==> Has(SetBit(s.alloc, k), j) == (j == k || Has(s.alloc, j))
  {
    forall j: nat | j < SLOTS
      ensures Has(SetBit(s.alloc, k), j) == (j == k || Has(s.alloc, j))
    {
      HasSet(s.alloc, k, j);
    }
    hide Has, SetBit;
  }

  /** Replacing one span of slots by another of the same class breaks no run. */
  lemma SlotSpans(spans: seq<Span>, i: nat, t: Span, used: nat)
    requires SpansOk(spans, used) && i < used && spans[i].state == t.state == Small && SmallOk(t)
    ensures SpansOk(spans[i := t], used)
  {
    hide Has, SmallOk;
    var after := spans[i := t];
    forall j: nat | j < used
      ensures SpanOk(after, j, used)
    {
      assert SpanOk(spans, j, used);
      match spans[j].state {
        case Large =>
          forall k: nat | j < k < j + spans[j].runLen
            ensures after[k].state == Cont && after[k].headIdx == j
          {
            assert spans[k].state == Cont;
          }
        case Cont => assert after[spans[j].headIdx] == spans[spans[j].headIdx];
        case _ =>
      }
    }
  }

  lemma TakenSound(h: Heap, h': Heap, i: nat, k: nat)
    requires Sound(h) && Taken(h, h', i, k)
    ensures Sound(h') && Shape(h')
  {
    assert SpanOk(h.spans, i, h.used);
    TakenSmall(h.spans[i], k);
    SlotSpans(h.spans, i, h'.spans[i], h.used);
    hide Has, SetBit, SmallOk, SpansOk;
  }

  lemma TakenHeap(h: Heap, h': Heap, i: nat, k: nat)
    requires HeapOk(h) && Taken(h, h', i, k)
    ensures HeapOk(h')
  {
    HeapParts(h);
    HeapParts(h');
    TakenSound(h, h', i, k);
    TakenZero(h, h', i, k);
    TakenMarks(h, h', i, k);
    hide Sound, MarksClear, ZeroOk, NoscanClear, Taken, HeapOk;
  }

  lemma TakenMarks(h: Heap, h': Heap, i: nat, k: nat)
    requires Sound(h) && MarksClear(h.spans) && NoscanClear(h) && Taken(h, h', i, k)
    ensures Shape(h') && MarksClear(h'.spans) && NoscanClear(h')
  {
    TakenSound(h, h', i, k);
    hide SpansOk, SetBit, SmallOk, NoPointers, Has, ZeroAt, SameOutside, SlotStart;
    forall j | 0 <= j < |h'.spans|
      ensures NoMarks(h'.spans[j])
    {
      assert NoMarks(h.spans[j]);
    }
  }

  lemma TakenZero(h: Heap, h': Heap, i: nat, k: nat)
    requires Sound(h) && ZeroOk(h) && Taken(h, h', i, k)
    ensures Shape(h') && ZeroOk(h')
  {
    TakenSound(h, h', i, k);
    assert SpanOk(h.spans, i, h.used);
    TakenSmall(h.spans[i], k);
    var at, n := SlotStart(h.spans[i].elem, i, k), h.spans[i].elem / 8;
    hide SpansOk, SetBit, SmallOk, Has, ZeroAt, SameOutside, SlotStart, Shape;
    ZeroKept(h.mem, h'.mem, at, n, SPAN_WORDS * h.used, |h.mem|);
    forall j: nat | j < h'.used && h'.spans[j].state == Small && !h'.spans[j].needzero
      ensures SlotsZero(h', j)
    {
      assert SlotsZero(h, j);
      var s := h'.spans[j];
      forall m: nat | m < s.nelems && m < SLOTS && !Has(s.alloc, m)
        ensures ZeroAt(h'.mem, SlotStart(s.elem, j, m), s.elem / 8)
      {
        ZeroKept(h.mem, h'.mem, at, n, SlotStart(s.elem, j, m), s.elem / 8);
      }
    }
  }

  /** Every other object keeps its words. */
  lemma TakenOther(h: Heap, h': Heap, i: nat, k: nat, p: Obj)
    requires Sound(h) && Sound(h') && Taken(h, h', i, k) && Allocated(h, p) && p != Obj(i, k) && Allocated(h', p) && Allocated(h', Obj(i, k))
    ensures SameObject(h, h', p)
  {
    Disjoint(h', p, Obj(i, k));
    InBounds(h', p);
    hide Sound, SetBit, Has, ZeroAt, SlotStart, Allocated;
  }

  lemma TakenGrew(h: Heap, h': Heap, i: nat, k: nat)
    requires Sound(h) && Taken(h, h', i, k)
    ensures Grew(h, h', Obj(i, k)) && ZeroAt(h'.mem, Start(h', Obj(i, k)), Words(h', Obj(i, k)))
    ensures Extent(h', Obj(i, k)) == Words(h', Obj(i, k)) == h.spans[i].elem / 8
  {
    TakenSound(h, h', i, k);
    assert SpanOk(h.spans, i, h.used);
    TakenSmall(h.spans[i], k);
    hide Sound, SetBit, SmallOk, Has, ZeroAt, SameOutside, SlotStart;
    forall p
      ensures p != Obj(i, k) ==> (Allocated(h', p) <==> Allocated(h, p))
      ensures Allocated(h, p) ==> SameObject(h, h', p)
    {
      if Allocated(h, p) {
        assert p != Obj(i, k);
        TakenOther(h, h', i, k, p);
      }
    }
  }

  /** Only the state and the room of the span that a class allocates from have changed. */
  lemma SlotLists(spans: seq<Span>, i: nat, t: Span, used: nat, inUse: nat, free: seq<nat>, cur: seq<Option<nat>>, partial: seq<seq<nat>>)
    requires ListsOk(spans, used, inUse, free, cur, partial) && i < used && spans[i].state == t.state == Small
    requires t.cls == spans[i].cls < NUM_CLASSES && cur[t.cls] == Some(i)
    ensures ListsOk(spans[i := t], used, inUse, free, cur, partial)
  {
    hide HasRoom, NonFree;
    NonFreeSet(spans, i, t, used);
    forall c: nat | c < NUM_CLASSES
      ensures PartialOk(partial[c], c, cur[c], spans[i := t], used)
    {
      assert PartialOk(partial[c], c, cur[c], spans, used);
    }
  }

  lemma SlotRoom(spans: seq<Span>, i: nat, t: Span, used: nat, cur: seq<Option<nat>>, partial: seq<seq<nat>>)
    requires RoomListed(spans, used, cur, partial) && i < used && spans[i].state == t.state == Small
    requires t.cls == spans[i].cls < NUM_CLASSES && cur[t.cls] == Some(i)
    ensures RoomListed(spans[i := t], used, cur, partial)
  {
    hide HasRoom;
  }

  lemma TakenBytes(s: Span, k: nat)
    requires SmallOk(s) && s.state == Small && k < SLOTS && !Has(s.alloc, k)
    ensures SpanBytes(s.(alloc := SetBit(s.alloc, k), freeindex := k + 1)) == SpanBytes(s) + s.elem
  {
    hide SmallOk, SlotBytes, Has, SetBit, Count;
    SmallTable(s);
    CountSet(s.alloc, k, SLOTS);
    OneMore(Count(s.alloc, SLOTS), s.elem);
  }

  lemma SmallTable(s: Span)
    requires SmallOk(s)
    ensures TableOk(s) && s.cls < NUM_CLASSES && s.elem == CLASS_SIZE[s.cls] && s.nelems <= SLOTS
  {
    hide Has;
    NelemsSmall(s);
  }

  lemma OneMore(n: nat, elem: nat)
    ensures SlotBytes(n + 1, elem) == SlotBytes(n, elem) + elem
  {
  }

  function Filled(h: Heap, i: nat): Heap
    requires i < |h.spans|
  {
    h.(spans := h.spans[i := h.spans[i].(freeindex := h.spans[i].nelems)])
  }

  lemma FilledSound(h: Heap, i: nat)
    requires Sound(h) && i < h.used && i < |h.spans| && h.spans[i].state == Small
    requires forall k: nat :: k < h.spans[i].nelems && k < SLOTS && TableOk(h.spans[i]) ==> Has(h.spans[i].alloc, k)
    ensures Sound(Filled(h, i)) && AllocBytes(Filled(h, i).spans, h.used) == AllocBytes(h.spans, h.used)
  {
    var t := h.spans[i].(freeindex := h.spans[i].nelems);
    assert SpanOk(h.spans, i, h.used);
    assert SmallOk(t) by {
      hide Has;
    }
    hide SmallOk, SpansOk, Has, AllocBytes, SlotBytes, Count;
    SlotSpans(h.spans, i, t, h.used);
    BytesSet(h.spans, i, t, h.used);
  }

  lemma FilledParts(h: Heap, i: nat)
    requires i < h.used && i < |h.spans| && Sound(h) && Sound(Filled(h, i)) && MarksClear(h.spans) && ZeroOk(h) && NoscanClear(h)
    requires h.spans[i].state == Small
    ensures MarksClear(Filled(h, i).spans) && ZeroOk(Filled(h, i)) && NoscanClear(Filled(h, i))
  {
    hide SpansOk, Has, ZeroAt, NoPointers, SlotStart;
    var h' := Filled(h, i);
    assert NoMarks(h.spans[i]);
    forall j: nat | j < h'.used && h'.spans[j].state == Small && !h'.spans[j].needzero
      ensures SlotsZero(h', j)
    {
      assert SlotsZero(h, j);
    }
    forall j: nat | j < h'.used && h'.spans[j].state == Large && h'.spans[j].noscan
      ensures NoPointers(h'.bits, SPAN_WORDS * j, h'.spans[j].objBytes / 8)
    {
      assert NoPointers(h.bits, SPAN_WORDS * j, h.spans[j].objBytes / 8);
    }
  }

  lemma FilledSame(h: Heap, i: nat)
    requires i < h.used && i < |h.spans| && Sound(h) && Sound(Filled(h, i)) && h.spans[i].state == Small
    ensures SameObjects(h, Filled(h, i))
  {
    hide SpansOk, Has;
  }

  /** A full span is not looked at again until it has been swept. */
  lemma FilledHeap(h: Heap, i: nat)
    requires HeapOk(h) && i < h.used && i < |h.spans| && h.spans[i].state == Small
    requires forall k: nat :: k < h.spans[i].nelems && k < SLOTS && TableOk(h.spans[i]) ==> Has(h.spans[i].alloc, k)
    ensures HeapOk(Filled(h, i)) && SameObjects(h, Filled(h, i))
    ensures AllocBytes(Filled(h, i).spans, h.used) == AllocBytes(h.spans, h.used)
  {
    hide Sound, MarksClear, ZeroOk, NoscanClear, Has, SameObjects, AllocBytes;
    FilledSound(h, i);
    FilledParts(h, i);
    FilledSame(h, i);
  }

  /** `memset` of whole words. */
  method ZeroWords(a: array<Word>, at: nat, n: nat)
    requires at + n <= a.Length
    modifies a
    ensures SameOutside(old(a[..]), a[..], at, n) && ZeroAt(a[..], at, n)
  {
    for w := at to at + n
      invariant forall v :: 0 <= v < a.Length ==> a[v] == if at <= v < w then 0 else old(a[v])
    {
      a[w] := 0;
    }
  }

  lemma BelowIndex(s: Span)
    requires SmallOk(s)
    ensures forall k: nat :: k < s.freeindex && k < SLOTS ==> Has(s.alloc, k)
  {
    hide Has;
  }

  lemma FullRoom(s: Span)
    requires SmallOk(s) && forall k: nat :: k < s.nelems ==> k >= SLOTS || Has(s.alloc, k)
    ensures !HasRoom(s)
  {
    SmallTable(s);
    hide Has, SmallOk;
    CountFull(s.alloc, s.nelems);
  }

  /** What a taken slot does to the counts and lists. */
  lemma TakenAll(g: Gc, h: Heap, h': Heap, i: nat, k: nat, cls: nat)
    requires HeapOk(h) && Taken(h, h', i, k) && h.spans[i].cls == cls < NUM_CLASSES
    requires ListsOk(h.spans, h.used, g.inUse, g.freeSpans, g.cur, g.partial) && g.cur[cls] == Some(i)
    ensures HeapOk(h') && Grew(h, h', Obj(i, k)) && ZeroAt(h'.mem, Start(h', Obj(i, k)), Words(h', Obj(i, k)))
    ensures Extent(h', Obj(i, k)) == h.spans[i].elem / 8 && h.spans[i].elem == CLASS_SIZE[cls]
    ensures ListsOk(h'.spans, h'.used, g.inUse, g.freeSpans, g.cur, g.partial)
    ensures AllocBytes(h'.spans, h'.used) == AllocBytes(h.spans, h.used) + CLASS_SIZE[cls]
  {
    hide ListsOk, Grew, ZeroAt, AllocBytes, Has, Sound, SmallOk, SlotStart, SetBit, CLASS_SIZE, SpanBytes, Start, Words, Extent, SameOutside, HeapOk;
    HeapParts(h);
    SpanSmall(h, i);
    TakenHeap(h, h', i, k);
    TakenGrew(h, h', i, k);
    SlotLists(h.spans, i, h'.spans[i], h.used, g.inUse, g.freeSpans, g.cur, g.partial);
    TakenBytes(h.spans[i], k);
    BytesSet(h.spans, i, h'.spans[i], h.used);
  }

  lemma SpanSmall(h: Heap, i: nat)
    requires HeapOk(h) && i < h.used && i < |h.spans| && h.spans[i].state == Small
    ensures SmallOk(h.spans[i]) && TableOk(h.spans[i]) && h.used <= |h.spans| && h.spans[i].cls < NUM_CLASSES
    ensures h.spans[i].elem == CLASS_SIZE[h.spans[i].cls] && h.spans[i].nelems <= SLOTS
    ensures !h.spans[i].needzero ==> SlotsZero(h, i)
    ensures forall k: nat :: k < h.spans[i].nelems ==> SlotStart(h.spans[i].elem, i, k) + h.spans[i].elem / 8 <= |h.mem|
  {
    assert SpanOk(h.spans, i, h.used);
    SmallTable(h.spans[i]);
    hide Has, SlotStart, SpansOk, SlotsZero;
    forall k: nat | k < h.spans[i].nelems
      ensures SlotStart(h.spans[i].elem, i, k) + h.spans[i].elem / 8 <= |h.mem|
    {
      SlotInSpan(h.spans[i].cls, i, k);
    }
  }

  lemma SlotIsZero(h: Heap, i: nat, k: nat)
    requires i < |h.spans| && SlotsZero(h, i) && k < h.spans[i].nelems && k < SLOTS && !Has(h.spans[i].alloc, k)
    ensures ZeroAt(h.mem, SlotStart(h.spans[i].elem, i, k), h.spans[i].elem / 8)
  {
    hide Has, ZeroAt, SlotStart;
  }

  lemma Unchanged(mem: seq<Word>, at: nat, n: nat)
    ensures SameOutside(mem, mem, at, n)
  {
  }

  /** Apart from where the search for a slot goes on, the spans are as they were. */
  ghost predicate SameSpans(a: seq<Span>, b: seq<Span>) {
    |a| == |b| && forall j :: 0 <= j < |a| ==> b[j] == a[j].(freeindex := b[j].freeindex)
  }

  lemma SlotRoomIs(s: Span, k: nat)
    requires SmallOk(s) && k < s.nelems && k < SLOTS && !Has(s.alloc, k)
    ensures HasRoom(s)
  {
    SmallTable(s);
    hide Has, SmallOk;
    CountFull(s.alloc, s.nelems);
  }

  lemma SameRoom(s: Span, n: nat)
    ensures HasRoom(s.(freeindex := n)) == HasRoom(s)
  {
  }

  /** The slots below `k` of span `i` are taken. */
  ghost predicate TakenBelow(h: Heap, i: nat, k: nat) {
    Shape(h) && forall j: nat :: j < k ==> Allocated(h, Obj(i, j))
  }

  lemma FirstTaken(h: Heap, h': Heap, i: nat, k: nat)
    requires HeapOk(h) && Taken(h, h', i, k)
    ensures TakenBelow(h, i, k)
  {
    hide Has, SpansOk, MarksClear, ZeroOk, NoscanClear, ZeroAt, SameOutside;
  }

  /** Takes the first free slot of the span that class `cls` allocates from, or finds that it is full. */
  method TakeSlot(g: Gc, cls: nat, i: nat) returns (r: Option<nat>)
    requires cls < NUM_CLASSES && Owing(g, CLASS_SIZE[cls]) && |g.cur| == NUM_CLASSES && g.cur[cls] == Some(i)
    requires i < g.used && i < g.spans.Length && g.spans[i].state == Small && g.spans[i].cls == cls
    modifies g.spans, g.mem
    ensures match r
            case Some(k) =>
              && Owing(g, 0) && Grew(old(g.H()), g.H(), Obj(i, k))
              && ZeroAt(g.H().mem, Start(g.H(), Obj(i, k)), Words(g.H(), Obj(i, k)))
            case None => Owing(g, CLASS_SIZE[cls]) && SameObjects(old(g.H()), g.H())
    ensures r.None? ==> !HasRoom(old(g.spans[..])[i]) && i < g.spans.Length && !HasRoom(g.spans[i]) && SameSpans(old(g.spans[..]), g.spans[..])
    ensures r.Some? ==> HasRoom(old(g.spans[..])[i]) && TakenBelow(old(g.H()), i, r.value)
    ensures r.Some? ==> g.spans[i].state == Small && Extent(g.H(), Obj(i, r.value)) == CLASS_SIZE[cls] / 8
  {
    hide HeapOk, Quiet, ListsOk, RoomListed, Grew, SameObjects, ZeroAt, AllocBytes, Has, SmallOk, SlotStart, SetBit, HasRoom, CLASS_SIZE, SlotsZero;
    hide SameOutside, Start, Words, Extent, TakenBelow;
    ghost var h := g.H();
    var s := g.spans[i];
    SpanSmall(h, i);
    var found := NextFree(s.alloc, s.freeindex, s.nelems);
    BelowIndex(s);
    if found.None? {
      FullRoom(s);
      FilledHeap(h, i);
      var t := s.(freeindex := s.nelems);
      SlotLists(h.spans, i, t, g.used, g.inUse, g.freeSpans, g.cur, g.partial);
      SlotRoom(h.spans, i, t, g.used, g.cur, g.partial);
      SameRoom(s, s.nelems);
      g.spans[i] := t;
      assert g.H() == h.(spans := h.spans[i := t]);
      return None;
    }
    var k := found.value;
    var at, n := SlotStart(s.elem, i, k), s.elem / 8;
    if s.needzero {
      ZeroWords(g.mem, at, n);
    } else {
      SlotIsZero(h, i, k);
      Unchanged(h.mem, at, n);
    }
    g.spans[i] := s.(alloc := SetBit(s.alloc, k), freeindex := k + 1);
    assert g.H() == h.(spans := h.spans[i := s.(alloc := SetBit(s.alloc, k), freeindex := k + 1)], mem := g.mem[..]);
    assert Taken(h, g.H(), i, k);
    TakenAll(g, h, g.H(), i, k, cls);
    SlotRoom(h.spans, i, g.spans[i], g.used, g.cur, g.partial);
    SlotRoomIs(s, k);
    FirstTaken(h, g.H(), i, k);
    r := Some(k);
  }
}

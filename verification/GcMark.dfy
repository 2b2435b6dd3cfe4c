/** Marking: roots and pointer words grey the objects they point to, until nothing is grey. */
module GcMark {
  import opened Wrappers
  import opened BitWords
  import opened BitTable
  import opened GcHeap
  import opened GcState

  // ---------------------------------------------------------------- one step

  /** The marks and the mark stack of a collection that began with heap `h0`. */
  ghost predicate Marking(h0: Heap, h: Heap, marked: set<Obj>, gray: seq<Obj>, mstack: seq<Word>) {
    && Sound(h0) && SameButMarks(h0, h)
    && (forall o :: o in marked <==> MarkedIn(h, o))
    && (forall o :: o in marked ==> Allocated(h0, o))
    && |mstack| == |gray|
    && forall j :: 0 <= j < |gray| ==> gray[j] in marked && mstack[j] == Addr(h0, gray[j])
  }

  /** Greying the object `t`, if there is one: it is marked, and pushed if it was not marked and may hold pointers. */
  ghost predicate Greyed(h: Heap, m0: set<Obj>, g0: seq<Obj>, m1: set<Obj>, g1: seq<Obj>, t: Option<Obj>) {
    match t
    case None => m1 == m0 && g1 == g0
    case Some(o) => m1 == m0 + {o} && g1 == if o in m0 || Noscan(h, o) then g0 else g0 + [o]
  }

  /** The span table after one mark. */
  function WithMark(spans: seq<Span>, o: Obj): seq<Span>
    requires o.span < |spans| && o.slot < 64 * |spans[o.span].mark|
  {
    spans[o.span := spans[o.span].(mark := SetBit(spans[o.span].mark, o.slot))]
  }

  lemma MarkOne(h0: Heap, h: Heap, marked: set<Obj>, o: Obj)
    requires Shape(h0) && SameButMarks(h0, h) && o.slot < SLOTS && o.span < |h.spans|
    requires forall p :: p in marked <==> MarkedIn(h, p)
    ensures SameButMarks(h0, h.(spans := WithMark(h.spans, o)))
    ensures forall p :: p in marked + {o} <==> MarkedIn(h.(spans := WithMark(h.spans, o)), p)
  {
    hide Has, SetBit;
    var h' := h.(spans := WithMark(h.spans, o));
    forall p
      ensures p in marked + {o} <==> MarkedIn(h', p)
    {
      if p.span == o.span && p.slot < SLOTS {
        HasSet(h.spans[o.span].mark, o.slot, p.slot);
      }
    }
  }

  lemma AllocatedSlot(h: Heap, o: Obj)
    requires Shape(h) && Allocated(h, o)
    ensures o.span < h.used <= |h.spans| && o.slot < SLOTS
  {
    hide Has;
  }

  /** Marks an object that is not marked, and pushes it if asked to. */
  method Grey(g: Gc, o: Obj, push: bool, addr: Word, ghost h0: Heap)
    requires Marking(h0, g.H(), g.marked, g.gray, g.mstack) && Allocated(h0, o) && o !in g.marked
    requires push == !Noscan(h0, o) && addr == Addr(h0, o)
    modifies g`mstack, g`gray, g`marked, g.spans
    ensures Marking(h0, g.H(), g.marked, g.gray, g.mstack)
    ensures Greyed(h0, old(g.marked), old(g.gray), g.marked, g.gray, Some(o))
  {
    hide Has, SetBit, SpansOk, Allocated, Start;
    AllocatedSlot(h0, o);
    MarkOne(h0, g.H(), g.marked, o);
    var s := g.spans[o.span];
    g.spans[o.span] := s.(mark := SetBit(s.mark, o.slot));
    assert g.spans[..] == WithMark(old(g.spans[..]), o);
    g.marked := g.marked + {o};
    if push {
      g.mstack := g.mstack + [addr];
      g.gray := g.gray + [o];
    }
  }

  lemma SameSpan(h0: Heap, h: Heap, i: nat)
    requires SameButMarks(h0, h) && i < |h.spans|
    ensures i < |h0.spans| && TableOk(h.spans[i]) && SameButMark(h0.spans[i], h.spans[i])
    ensures h.base == h0.base && h.used == h0.used && h.mem == h0.mem && h.bits == h0.bits && |h.spans| == |h0.spans|
  {
    hide TableOk, SameButMark;
  }

  /** `mark_large`: a word that points into the bytes of a large object greys it. */
  method MarkLarge(g: Gc, si: nat, off: nat, p: Word, ghost h0: Heap)
    requires Marking(h0, g.H(), g.marked, g.gray, g.mstack)
    requires off == Offset(h0, p) && off / SPAN_SIZE == si && si < h0.used && h0.spans[si].state != Small
    modifies g`mstack, g`gray, g`marked, g.spans
    ensures Marking(h0, g.H(), g.marked, g.gray, g.mstack)
    ensures Greyed(h0, old(g.marked), old(g.gray), g.marked, g.gray, Points(h0, p))
  {
    hide Marking, Greyed, SameButMarks, MarkedIn, Has, Shape, LargeOk, SmallOk;
    MarkingHeap(h0, g.H(), g.marked, g.gray, g.mstack);
    SameLength(h0, g.H());
    SameSpan(h0, g.H(), si);
    assert SpanOk(h0.spans, si, h0.used);
    var s := g.spans[si];
    if s.state == Free {
      GreyNone(h0, g.marked, g.gray);
      return;
    }
    var hi := if s.state == Cont then s.headIdx else si;
    SameSpan(h0, g.H(), hi);
    var h := g.spans[hi];
    if off - SPAN_SIZE * hi >= h.objBytes {
      GreyNone(h0, g.marked, g.gray);
      return;
    }
    ghost var o := Obj(hi, 0);
    LargeObject(h0, hi);
    MarkedLow(h0, g.H(), g.marked, g.gray, g.mstack, o);
    if Has(h.mark, 0) {
      GreyAgain(h0, g.marked, g.gray, o);
      return;
    }
    Grey(g, Obj(hi, 0), !h.noscan, g.base + SPAN_SIZE * hi, h0);
  }

  lemma MarkingHeap(h0: Heap, h: Heap, marked: set<Obj>, gray: seq<Obj>, mstack: seq<Word>)
    requires Marking(h0, h, marked, gray, mstack)
    ensures Sound(h0) && SameButMarks(h0, h)
  {
    hide Sound, SameButMarks;
  }

  lemma GreyNone(h: Heap, m: set<Obj>, g: seq<Obj>)
    ensures Greyed(h, m, g, m, g, None)
  {
  }

  lemma GreyAgain(h: Heap, m: set<Obj>, g: seq<Obj>, o: Obj)
    requires o in m
    ensures Greyed(h, m, g, m, g, Some(o))
  {
  }

  lemma LargeObject(h: Heap, i: nat)
    requires Sound(h) && i < h.used && h.spans[i].state == Large
    ensures Allocated(h, Obj(i, 0)) && Addr(h, Obj(i, 0)) == h.base + SPAN_SIZE * i && Noscan(h, Obj(i, 0)) == h.spans[i].noscan
    ensures h.base + SPAN_SIZE * i < ADDRESSES
  {
  }

  lemma MarkedLow(h0: Heap, h: Heap, marked: set<Obj>, gray: seq<Obj>, mstack: seq<Word>, o: Obj)
    requires Marking(h0, h, marked, gray, mstack) && o.span < |h.spans| && o.slot < SLOTS
    ensures TableOk(h.spans[o.span]) && (o in marked <==> Has(h.spans[o.span].mark, o.slot))
  {
    hide Sound, Has, Addr, Allocated;
    MarkingHeap(h0, h, marked, gray, mstack);
    SameSpan(h0, h, o.span);
  }

  /** A word that points into a span of slots greys the slot's object, if the slot is allocated. */
  method MarkSlot(g: Gc, i: nat, off: nat, p: Word, ghost h0: Heap)
    requires Marking(h0, g.H(), g.marked, g.gray, g.mstack)
    requires off == Offset(h0, p) && off / SPAN_SIZE == i && i < h0.used && h0.spans[i].state == Small
    modifies g`mstack, g`gray, g`marked, g.spans
    ensures Marking(h0, g.H(), g.marked, g.gray, g.mstack)
    ensures Greyed(h0, old(g.marked), old(g.gray), g.marked, g.gray, Points(h0, p))
  {
    hide Marking, Greyed, SameButMarks, MarkedIn, Has, Sound, SmallOk, SlotAt, SlotOffset, Addr, Start;
    MarkingHeap(h0, g.H(), g.marked, g.gray, g.mstack);
    SameLength(h0, g.H());
    SameSpan(h0, g.H(), i);
    var s := g.spans[i];
    SpanAt(h0, i);
    ElemSame(h0.spans[i]);
    SmallSlots(h0.spans[i]);
    var idx := SlotAt(off, s.elem);
    if idx >= s.nelems || !Has(s.alloc, idx) {
      GreyNone(h0, g.marked, g.gray);
      return;
    }
    ghost var o := Obj(i, idx);
    SmallObject(h0, o);
    MarkedLow(h0, g.H(), g.marked, g.gray, g.mstack, o);
    if Has(s.mark, idx) {
      GreyAgain(h0, g.marked, g.gray, o);
      return;
    }
    SameHeap(h0, g.H());
    Grey(g, Obj(i, idx), true, g.base + SlotOffset(i, idx, s.elem), h0);
  }

  /** `mark_ptr`: a word that points at or into an allocated object greys it. */
  method MarkPtr(g: Gc, p: Word, ghost h0: Heap)
    requires Marking(h0, g.H(), g.marked, g.gray, g.mstack)
    modifies g`mstack, g`gray, g`marked, g.spans
    ensures Marking(h0, g.H(), g.marked, g.gray, g.mstack)
    ensures Greyed(h0, old(g.marked), old(g.gray), g.marked, g.gray, Points(h0, p))
  {
    hide Marking, Greyed, SameButMarks, Sound;
    MarkingHeap(h0, g.H(), g.marked, g.gray, g.mstack);
    SameHeap(h0, g.H());
    SameLength(h0, g.H());
    var off: nat := if p >= g.base then p - g.base else p - g.base + ADDRESSES;
    if off >= SPAN_SIZE * g.used {
      PointsOutside(h0, p);
      GreyNone(h0, g.marked, g.gray);
      return;
    }
    var i := off / SPAN_SIZE;
    SameSpan(h0, g.H(), i);
    if g.spans[i].state != Small {
      MarkLarge(g, i, off, p, h0);
    } else {
      MarkSlot(g, i, off, p, h0);
    }
  }

  lemma PointsOutside(h: Heap, p: Word)
    requires Sound(h) && Offset(h, p) >= SPAN_SIZE * h.used
    ensures Points(h, p) == None
  {
  }

  lemma SpanAt(h: Heap, i: nat)
    requires Sound(h) && i < h.used
    ensures i < |h.spans| && SpanOk(h.spans, i, h.used)
  {
  }

  lemma SameHeap(h0: Heap, h: Heap)
    requires SameButMarks(h0, h)
    ensures h.base == h0.base && h.used == h0.used && h.mem == h0.mem && h.bits == h0.bits && |h.spans| == |h0.spans|
  {
  }

  lemma SameLength(h0: Heap, h: Heap)
    requires SameButMarks(h0, h) && Sound(h0)
    ensures |h.spans| == |h0.spans| >= h0.used && Shape(h0)
  {
  }

  lemma ElemSame(s: Span)
    requires SmallOk(s)
    ensures s.elem > 0 && ElemOf(s) == s.elem
  {
    hide Has;
  }

  lemma SmallSlots(s: Span)
    requires SmallOk(s)
    ensures s.nelems <= SLOTS && TableOk(s) && s.elem % 8 == 0
  {
    hide Has;
    ClassSizes(s.cls);
  }

  lemma SmallObject(h: Heap, o: Obj)
    requires Sound(h) && o.span < h.used && h.spans[o.span].state == Small
    requires o.slot < h.spans[o.span].nelems && o.slot < SLOTS && Has(h.spans[o.span].alloc, o.slot)
    ensures Allocated(h, o) && !Noscan(h, o)
    ensures Addr(h, o) == h.base + SlotOffset(o.span, o.slot, h.spans[o.span].elem) < ADDRESSES
  {
    hide Has;
    InBounds(h, o);
    assert SpanOk(h.spans, o.span, h.used);
    SmallSlots(h.spans[o.span]);
    EightTimes(o.slot, h.spans[o.span].elem);
  }

  lemma EightTimes(k: nat, e: nat)
    requires e % 8 == 0
    ensures 8 * (k * (e / 8)) == k * e
  {
    assert 8 * (e / 8) == e;
  }

  // ---------------------------------------------------------------- scanning an object

  /** What the word points to, if anything, is marked. */
  ghost predicate Hit(h: Heap, marked: set<Obj>, p: Word) {
    Sound(h) && (Points(h, p).Some? ==> Points(h, p).value in marked)
  }

  /** The words from `w` on whose bits are set in `m` have been followed. */
  ghost predicate AllHit(h: Heap, marked: set<Obj>, m: bv64, w: nat, n: nat) {
    forall j: nat :: j < n && Bit(m, j) ==> w + j < |h.mem| && Hit(h, marked, h.mem[w + j])
  }

  /** More objects are marked; they are all reached from the roots, and grey unless they hold no pointers. */
  ghost predicate Progress(h: Heap, roots: seq<Word>, m0: set<Obj>, g0: seq<Obj>, m1: set<Obj>, g1: seq<Obj>) {
    && Sound(h) && m0 <= m1 && g0 <= g1 && (m1 == m0 ==> g1 == g0)
    && forall o :: o in m1 && o !in m0 ==> Reached(h, roots, o) && (o in g1 || Noscan(h, o))
  }

  lemma ProgressNone(h: Heap, roots: seq<Word>, m: set<Obj>, g: seq<Obj>)
    requires Sound(h)
    ensures Progress(h, roots, m, g, m, g)
  {
  }

  lemma ProgressMore(h: Heap, roots: seq<Word>, m0: set<Obj>, g0: seq<Obj>, m1: set<Obj>, g1: seq<Obj>, m2: set<Obj>, g2: seq<Obj>)
    requires Sound(h) && Progress(h, roots, m0, g0, m1, g1) && Progress(h, roots, m1, g1, m2, g2)
    ensures Progress(h, roots, m0, g0, m2, g2)
  {
    hide Reached, Noscan, Sound;
  }

  lemma ProgressGreyed(h: Heap, roots: seq<Word>, m0: set<Obj>, g0: seq<Obj>, m1: set<Obj>, g1: seq<Obj>, p: Word)
    requires Sound(h) && Greyed(h, m0, g0, m1, g1, Points(h, p))
    requires Points(h, p).Some? ==> Reached(h, roots, Points(h, p).value)
    ensures Progress(h, roots, m0, g0, m1, g1) && Hit(h, m1, p)
  {
    hide Reached, Noscan, Sound, Points;
  }

  /** `w` is a pointer word of object `x`. */
  ghost predicate PointerWord(h: Heap, x: Obj, w: nat) {
    && Sound(h) && Allocated(h, x)
    && Start(h, x) <= w < Start(h, x) + Words(h, x) && w < |h.mem| && Has(h.bits, w)
  }

  lemma PointerReached(h: Heap, roots: seq<Word>, x: Obj, w: nat)
    requires Sound(h) && Allocated(h, x) && Reached(h, roots, x) && PointerWord(h, x, w)
    ensures Points(h, h.mem[w]).Some? ==> Reached(h, roots, Points(h, h.mem[w]).value)
  {
    AllocatedSlot(h, x);
    hide Shape, SpansOk, Points, Reached, Has, Allocated;
    if Points(h, h.mem[w]).Some? {
      assert EdgeAt(h, x, w - Start(h, x), Points(h, h.mem[w]).value);
      ReachEdge(h, roots, x, Points(h, h.mem[w]).value);
    }
  }

  /** Greys what the words from `w` on point to whose bits are set in `m`, lowest bit first. */
  method MarkBits(g: Gc, m: bv64, w: nat, ghost x: Obj, ghost roots: seq<Word>, ghost h0: Heap)
    requires Sound(h0) && Allocated(h0, x) && Reached(h0, roots, x) && Marking(h0, g.H(), g.marked, g.gray, g.mstack)
    requires forall j: nat :: j < 64 && Bit(m, j) ==> PointerWord(h0, x, w + j)
    modifies g`mstack, g`gray, g`marked, g.spans
    ensures Marking(h0, g.H(), g.marked, g.gray, g.mstack)
    ensures Progress(h0, roots, old(g.marked), old(g.gray), g.marked, g.gray)
    ensures AllHit(h0, g.marked, m, w, 64)
  {
    hide Marking, Greyed, Progress, Hit, Sound, Bit, Points, Reached, Allocated, ClearLow, Has, SameButMarks;
    MarkingHeap(h0, g.H(), g.marked, g.gray, g.mstack);
    ProgressNone(h0, roots, g.marked, g.gray);
    var left := m;
    ghost var low: nat := 0;
    while left != 0
      invariant low <= 64
      invariant Marking(h0, g.H(), g.marked, g.gray, g.mstack)
      invariant Progress(h0, roots, old(g.marked), old(g.gray), g.marked, g.gray)
      invariant forall j: nat :: j < 64 ==> Bit(left, j) == (Bit(m, j) && j >= low)
      invariant AllHit(h0, g.marked, m, w, low)
      decreases 64 - low
    {
      var i := TrailingZeros(left);
      ghost var before := left;
      left := ClearLow(left);
      forall j: nat | j < 64
        ensures Bit(left, j) == (Bit(m, j) && j >= i + 1)
      {
        ClearLowest(before, i, j);
      }
      assert PointerWord(h0, x, w + i);
      MarkingHeap(h0, g.H(), g.marked, g.gray, g.mstack);
      SameHeap(h0, g.H());
      PointerReached(h0, roots, x, w + i);
      ghost var m1, g1 := g.marked, g.gray;
      assert g.mem[w + i] == h0.mem[w + i];
      MarkPtr(g, g.mem[w + i], h0);
      ProgressGreyed(h0, roots, m1, g1, g.marked, g.gray, h0.mem[w + i]);
      HitMore(h0, roots, m1, g1, g.marked, g.gray, m, w, low);
      ProgressMore(h0, roots, old(g.marked), old(g.gray), m1, g1, g.marked, g.gray);
      low := i + 1;
    }
    forall j: nat | j < 64 && Bit(m, j)
      ensures j < low
    {
      ZeroBit(j);
    }
  }

  lemma HitMore(h: Heap, roots: seq<Word>, m0: set<Obj>, g0: seq<Obj>, m1: set<Obj>, g1: seq<Obj>, m: bv64, w: nat, n: nat)
    requires Progress(h, roots, m0, g0, m1, g1) && AllHit(h, m0, m, w, n)
    ensures AllHit(h, m1, m, w, n)
  {
    hide Sound, Points, Bit, Reached;
  }

  /** The pointer words from `a` up to `b` have been followed. */
  ghost predicate WordsHit(h: Heap, marked: set<Obj>, a: nat, b: nat) {
    forall v: nat :: a <= v < b ==> v < |h.mem| && v < 64 * |h.bits| && (Has(h.bits, v) ==> Hit(h, marked, h.mem[v]))
  }

  lemma WordsHitMore(h: Heap, roots: seq<Word>, m0: set<Obj>, g0: seq<Obj>, m1: set<Obj>, g1: seq<Obj>, a: nat, b: nat,
                     m: bv64, take: nat)
    requires Progress(h, roots, m0, g0, m1, g1) && WordsHit(h, m0, a, b) && a <= b && b + take <= |h.mem| <= 64 * |h.bits| && take <= 64
    requires forall j: nat :: j < 64 ==> Bit(m, j) == (j < take && Has(h.bits, b + j))
    requires AllHit(h, m1, m, b, 64)
    ensures WordsHit(h, m1, a, b + take)
  {
    hide Sound, Points, Bit, Reached, Has, Noscan;
    forall v: nat | a <= v < b + take
      ensures Has(h.bits, v) ==> Hit(h, m1, h.mem[v])
    {
      if v >= b {
        var j: nat := v - b;
        assert Bit(m, j) == (j < take && Has(h.bits, b + j));
      }
    }
  }

  /** The bits of one word of the bitmap, from position `w` on. */
  method ChunkOf(a: array<bv64>, w: nat, take: nat) returns (m: bv64)
    requires w % 64 + take <= 64 && w + take <= 64 * a.Length && take > 0
    ensures forall j: nat :: j < 64 ==> Bit(m, j) == (j < take && Has(a[..], w + j))
  {
    hide Bit, Shr, And, Ones;
    var low := Shr(a[w / 64], w % 64);
    m := if take < 64 then And(low, Ones(take)) else low;
    forall j: nat | j < 64
      ensures Bit(m, j) == (j < take && Has(a[..], w + j))
    {
      AndBit(low, Ones(take), j);
      OnesBit(take, j);
      ShrBit(a[w / 64], w % 64, j);
      if w % 64 + j >= 64 {
        NoBitAbove(a[w / 64], w % 64 + j);
      }
    }
  }

  /** `scan_words`: greys what the pointer words of an object point to, one word of the bitmap at a time. */
  method ScanWords(g: Gc, at: nat, n: nat, ghost x: Obj, ghost roots: seq<Word>, ghost h0: Heap)
    requires Sound(h0) && Allocated(h0, x) && Reached(h0, roots, x) && Marking(h0, g.H(), g.marked, g.gray, g.mstack)
    requires at == Start(h0, x) && n == Words(h0, x)
    modifies g`mstack, g`gray, g`marked, g.spans
    ensures Marking(h0, g.H(), g.marked, g.gray, g.mstack)
    ensures Progress(h0, roots, old(g.marked), old(g.gray), g.marked, g.gray)
    ensures WordsHit(h0, g.marked, at, at + n)
  {
    hide Marking, Progress, Hit, Sound, Bit, Points, Reached, Allocated, Has, SameButMarks, AllHit, Start, Words, PointerWord, WordsHit;
    ObjectWords(h0, x);
    ProgressNone(h0, roots, g.marked, g.gray);
    var w: nat := at;
    assert WordsHit(h0, g.marked, at, at) by { WordsHitNone(h0, g.marked, at); }
    while w < at + n
      invariant at <= w <= at + n
      invariant Marking(h0, g.H(), g.marked, g.gray, g.mstack)
      invariant Progress(h0, roots, old(g.marked), old(g.gray), g.marked, g.gray)
      invariant WordsHit(h0, g.marked, at, w)
    {
      var off := w % 64;
      var take: nat := if 64 - off > at + n - w then at + n - w else 64 - off;
      MarkingHeap(h0, g.H(), g.marked, g.gray, g.mstack);
      SameHeap(h0, g.H());
      var m := ChunkOf(g.bits, w, take);
      assert g.bits[..] == h0.bits;
      ghost var m1, g1 := g.marked, g.gray;
      ChunkPointers(h0, x, m, w, take);
      MarkBits(g, m, w, x, roots, h0);
      WordsHitMore(h0, roots, m1, g1, g.marked, g.gray, at, w, m, take);
      ProgressMore(h0, roots, old(g.marked), old(g.gray), m1, g1, g.marked, g.gray);
      w := w + take;
    }
  }

  lemma ObjectWords(h: Heap, x: Obj)
    requires Sound(h) && Allocated(h, x)
    ensures x.span < |h.spans| && Start(h, x) + Words(h, x) <= |h.mem| && |h.mem| + 64 <= 64 * |h.bits|
  {
    InBounds(h, x);
  }

  lemma WordsHitNone(h: Heap, marked: set<Obj>, a: nat)
    ensures WordsHit(h, marked, a, a)
  {
  }

  lemma ChunkPointers(h: Heap, x: Obj, m: bv64, w: nat, take: nat)
    requires Sound(h) && Allocated(h, x) && x.span < |h.spans| && Start(h, x) <= w && w + take <= Start(h, x) + Words(h, x) <= |h.mem|
    requires |h.mem| <= 64 * |h.bits|
    requires forall j: nat :: j < 64 ==> Bit(m, j) == (j < take && w + j < 64 * |h.bits| && Has(h.bits, w + j))
    ensures forall j: nat :: j < 64 && Bit(m, j) ==> PointerWord(h, x, w + j)
  {
    hide Sound, Bit, Has, Allocated, Start, Words;
  }

  /** `scan_object`: every pointer word of a grey object is followed; objects of at most 64 words take one read of the bitmap. */
  method ScanObject(g: Gc, addr: Word, ghost x: Obj, ghost roots: seq<Word>, ghost h0: Heap)
    requires Sound(h0) && Allocated(h0, x) && Reached(h0, roots, x) && Marking(h0, g.H(), g.marked, g.gray, g.mstack)
    requires x.span < |h0.spans| && addr == Addr(h0, x)
    modifies g`mstack, g`gray, g`marked, g.spans
    ensures Marking(h0, g.H(), g.marked, g.gray, g.mstack)
    ensures Progress(h0, roots, old(g.marked), old(g.gray), g.marked, g.gray)
    ensures WordsHit(h0, g.marked, Start(h0, x), Start(h0, x) + Words(h0, x))
  {
    hide Marking, Progress, Hit, Sound, Bit, Points, Reached, Allocated, Has, SameButMarks, AllHit, PointerWord, WordsHit;
    MarkingHeap(h0, g.H(), g.marked, g.gray, g.mstack);
    SameHeap(h0, g.H());
    ObjectWords(h0, x);
    ObjectSpan(h0, x);
    var off := addr - g.base;
    SameSpan(h0, g.H(), x.span);
    var s := g.spans[off / SPAN_SIZE];
    if s.state == Large {
      ScanWords(g, off / 8, s.objBytes / 8, x, roots, h0);
      return;
    }
    var nw := s.elem / 8;
    if nw > 64 {
      ScanWords(g, off / 8, nw, x, roots, h0);
      return;
    }
    hide Start, Words;
    var w := off / 8;
    var m := Read(g.bits, w, nw);
    assert g.bits[..] == h0.bits;
    ChunkPointers(h0, x, m, w, nw);
    ghost var m0, g0 := g.marked, g.gray;
    MarkBits(g, m, w, x, roots, h0);
    WordsHitNone(h0, m0, w);
    WordsHitMore(h0, roots, m0, g0, g.marked, g.gray, w, w, m, nw);
  }

  lemma ObjectSpan(h: Heap, x: Obj)
    requires Sound(h) && Allocated(h, x)
    ensures x.span < |h.spans| && 8 * Start(h, x) / SPAN_SIZE == x.span && 8 * Start(h, x) / 8 == Start(h, x)
    ensures h.spans[x.span].state == Large || h.spans[x.span].state == Small
    ensures Start(h, x) + Words(h, x) <= |h.mem| && (h.spans[x.span].state == Small ==> Words(h, x) > 0)
  {
    InBounds(h, x);
    SpanAt(h, x.span);
    if h.spans[x.span].state == Small {
      SmallSlots(h.spans[x.span]);
      ElemSame(h.spans[x.span]);
    }
  }

  // ---------------------------------------------------------------- the whole mark phase

  /** Every marked object that is not grey has been scanned: what it points to is marked. */
  ghost predicate Blackened(h: Heap, marked: set<Obj>, gray: seq<Obj>)
    requires Sound(h)
  {
    forall o, q :: o in marked && o !in gray && Edge(h, o, q) ==> q in marked
  }

  ghost predicate AllReached(h: Heap, roots: seq<Word>, marked: set<Obj>)
    requires Sound(h)
  {
    forall o :: o in marked ==> Reached(h, roots, o)
  }

  ghost predicate RootsHit(h: Heap, roots: seq<Word>, n: nat, marked: set<Obj>)
    requires n <= |roots|
  {
    forall i :: 0 <= i < n ==> Hit(h, marked, roots[i])
  }

  /** An object whose words have been followed has all its targets marked. */
  lemma ScannedEdges(h: Heap, marked: set<Obj>, x: Obj, q: Obj)
    requires Sound(h) && Allocated(h, x) && x.span < |h.spans| && WordsHit(h, marked, Start(h, x), Start(h, x) + Words(h, x))
    requires Edge(h, x, q)
    ensures q in marked
  {
    hide Sound, Points, Has, Allocated, Start, Words;
    var w: nat :| EdgeAt(h, x, w, q);
    assert Has(h.bits, Start(h, x) + w) ==> Hit(h, marked, h.mem[Start(h, x) + w]);
  }

  /** The object that was popped and scanned joins the black ones. */
  lemma BlackenOne(h: Heap, roots: seq<Word>, m0: set<Obj>, g0: seq<Obj>, x: Obj, m1: set<Obj>, g1: seq<Obj>)
    requires Sound(h) && NoscanClear(h) && Blackened(h, m0, g0 + [x]) && Progress(h, roots, m0, g0, m1, g1)
    requires Allocated(h, x) && x.span < |h.spans| && WordsHit(h, m1, Start(h, x), Start(h, x) + Words(h, x))
    ensures Blackened(h, m1, g1)
  {
    hide Sound, NoscanClear, Reached, WordsHit, Edge, Allocated, Noscan;
    forall o, q | o in m1 && o !in g1 && Edge(h, o, q)
      ensures q in m1
    {
      if o == x {
        ScannedEdges(h, m1, x, q);
      } else if o in m0 {
        assert o !in g0 + [x];
      } else {
        NoscanNoEdge(h, o, q);
      }
    }
  }

  lemma ReachedMore(h: Heap, roots: seq<Word>, m0: set<Obj>, g0: seq<Obj>, m1: set<Obj>, g1: seq<Obj>)
    requires Sound(h) && AllReached(h, roots, m0) && Progress(h, roots, m0, g0, m1, g1)
    ensures AllReached(h, roots, m1)
  {
    hide Reached, Sound, Noscan;
  }

  lemma RootsMore(h: Heap, roots: seq<Word>, n: nat, m0: set<Obj>, g0: seq<Obj>, m1: set<Obj>, g1: seq<Obj>)
    requires n <= |roots| && RootsHit(h, roots, n, m0) && Progress(h, roots, m0, g0, m1, g1)
    ensures RootsHit(h, roots, n, m1)
  {
    hide Reached, Sound, Noscan, Points;
  }

  /** Marking the roots leaves only grey objects and objects without pointers. */
  lemma BlackenRoot(h: Heap, roots: seq<Word>, m0: set<Obj>, g0: seq<Obj>, m1: set<Obj>, g1: seq<Obj>)
    requires Sound(h) && NoscanClear(h) && Blackened(h, m0, g0) && Progress(h, roots, m0, g0, m1, g1)
    ensures Blackened(h, m1, g1)
  {
    hide Sound, NoscanClear, Reached, Edge, Noscan;
    forall o, q | o in m1 && o !in g1 && Edge(h, o, q)
      ensures q in m1
    {
      if o !in m0 {
        NoscanNoEdge(h, o, q);
      }
    }
  }

  /** With nothing left grey, the marked objects are exactly those that the roots reach. */
  lemma MarkedExactly(h: Heap, roots: seq<Word>, marked: set<Obj>)
    requires Sound(h) && Blackened(h, marked, []) && AllReached(h, roots, marked) && RootsHit(h, roots, |roots|, marked)
    ensures forall o :: o in marked <==> Reached(h, roots, o)
  {
    hide Sound, Edge, Points, Reached;
    forall o | Reached(h, roots, o)
      ensures o in marked
    {
      forall p | IsRoot(h, roots, p)
        ensures p in marked
      {
        var i :| 0 <= i < |roots| && Points(h, roots[i]) == Some(p);
        assert Hit(h, marked, roots[i]);
      }
      ReachedWithin(h, roots, marked, o);
    }
  }

  lemma RootReached(h: Heap, roots: seq<Word>, i: nat)
    requires Sound(h) && i < |roots|
    ensures Points(h, roots[i]).Some? ==> Reached(h, roots, Points(h, roots[i]).value)
  {
    hide Sound, Points, Reached;
    if Points(h, roots[i]).Some? {
      ReachRoot(h, roots, Points(h, roots[i]).value);
    }
  }

  /** `scan_roots`, `scan_arena_roots` and `scan_global_roots`, on the words they read. */
  method MarkRoots(g: Gc, roots: seq<Word>, ghost h0: Heap)
    requires Sound(h0) && NoscanClear(h0) && Marking(h0, g.H(), g.marked, g.gray, g.mstack) && g.marked == {} && g.gray == []
    modifies g`mstack, g`gray, g`marked, g.spans
    ensures Marking(h0, g.H(), g.marked, g.gray, g.mstack)
    ensures AllReached(h0, roots, g.marked) && Blackened(h0, g.marked, g.gray) && RootsHit(h0, roots, |roots|, g.marked)
  {
    hide Marking, Greyed, Progress, Sound, Points, Reached, Edge, NoscanClear, Blackened, AllReached, RootsHit;
    NothingMarked(h0, roots);
    for i := 0 to |roots|
      invariant Marking(h0, g.H(), g.marked, g.gray, g.mstack)
      invariant AllReached(h0, roots, g.marked) && Blackened(h0, g.marked, g.gray) && RootsHit(h0, roots, i, g.marked)
    {
      ghost var m, gr := g.marked, g.gray;
      RootReached(h0, roots, i);
      MarkPtr(g, roots[i], h0);
      ProgressGreyed(h0, roots, m, gr, g.marked, g.gray, roots[i]);
      ReachedMore(h0, roots, m, gr, g.marked, g.gray);
      BlackenRoot(h0, roots, m, gr, g.marked, g.gray);
      RootsMore(h0, roots, i, m, gr, g.marked, g.gray);
      RootsNext(h0, roots, i, g.marked);
    }
  }

  lemma NothingMarked(h: Heap, roots: seq<Word>)
    requires Sound(h)
    ensures AllReached(h, roots, {}) && Blackened(h, {}, []) && RootsHit(h, roots, 0, {})
  {
  }

  lemma RootsNext(h: Heap, roots: seq<Word>, i: nat, marked: set<Obj>)
    requires i < |roots| && RootsHit(h, roots, i, marked) && Hit(h, marked, roots[i])
    ensures RootsHit(h, roots, i + 1, marked)
  {
    hide Hit;
  }

  /** The mark phase ends with exactly the objects marked that the roots reach. */
  method Mark(g: Gc, roots: seq<Word>, ghost h0: Heap)
    requires Sound(h0) && NoscanClear(h0) && Marking(h0, g.H(), g.marked, g.gray, g.mstack) && g.marked == {} && g.gray == []
    modifies g`mstack, g`gray, g`marked, g.spans
    ensures Marking(h0, g.H(), g.marked, g.gray, g.mstack) && g.mstack == []
    ensures forall o :: o in g.marked <==> Reached(h0, roots, o)
  {
    hide Marking, Greyed, Progress, Sound, Points, Reached, Edge, NoscanClear, Blackened, AllReached, RootsHit, Universe;
    hide WordsHit, Allocated, Start, Words;
    MarkRoots(g, roots, h0);
    StackSame(h0, g.H(), g.marked, g.gray, g.mstack);
    while g.mstack != []
      invariant Marking(h0, g.H(), g.marked, g.gray, g.mstack) && |g.mstack| == |g.gray|
      invariant AllReached(h0, roots, g.marked) && Blackened(h0, g.marked, g.gray) && RootsHit(h0, roots, |roots|, g.marked)
      decreases Universe(h0) - g.marked, |g.mstack|
    {
      var top := |g.mstack| - 1;
      var addr := g.mstack[top];
      ghost var x, m, gr := g.gray[top], g.marked, g.gray[..top];
      Popped(h0, roots, g.H(), g.marked, g.gray, g.mstack);
      g.mstack := g.mstack[..top];
      g.gray := g.gray[..top];
      ScanObject(g, addr, x, roots, h0);
      StackSame(h0, g.H(), g.marked, g.gray, g.mstack);
      BlackenOne(h0, roots, m, gr, x, g.marked, g.gray);
      ReachedMore(h0, roots, m, gr, g.marked, g.gray);
      RootsMore(h0, roots, |roots|, m, gr, g.marked, g.gray);
      MoreMarked(h0, roots, m, gr, g.H(), g.marked, g.gray, g.mstack);
    }
    MarkedExactly(h0, roots, g.marked);
  }

  lemma StackSame(h0: Heap, h: Heap, marked: set<Obj>, gray: seq<Obj>, mstack: seq<Word>)
    requires Marking(h0, h, marked, gray, mstack)
    ensures |mstack| == |gray|
  {
    hide Sound, SameButMarks, MarkedIn, Allocated, Addr;
  }

  lemma Popped(h0: Heap, roots: seq<Word>, h: Heap, marked: set<Obj>, gray: seq<Obj>, mstack: seq<Word>)
    requires Sound(h0) && Marking(h0, h, marked, gray, mstack) && |mstack| > 0 && |gray| > 0 && AllReached(h0, roots, marked)
    requires Blackened(h0, marked, gray)
    ensures var top := |mstack| - 1;
            && |gray| == |mstack| && Marking(h0, h, marked, gray[..top], mstack[..top])
            && Allocated(h0, gray[top]) && gray[top].span < |h0.spans| && mstack[top] == Addr(h0, gray[top])
            && Reached(h0, roots, gray[top]) && Blackened(h0, marked, gray[..top] + [gray[top]])
  {
    hide Shape, SpansOk, SameButMarks, MarkedIn, Addr, Reached, Edge;
    AllocatedSlot(h0, gray[|gray| - 1]);
    hide Allocated;
    assert gray[..|gray| - 1] + [gray[|gray| - 1]] == gray;
  }

  lemma MoreMarked(h0: Heap, roots: seq<Word>, m0: set<Obj>, g0: seq<Obj>, h: Heap, m1: set<Obj>, g1: seq<Obj>, mstack: seq<Word>)
    requires Sound(h0) && Marking(h0, h, m1, g1, mstack) && Progress(h0, roots, m0, g0, m1, g1)
    ensures Universe(h0) - m1 <= Universe(h0) - m0
    ensures Universe(h0) - m1 == Universe(h0) - m0 ==> |mstack| == |g0|
  {
    hide SameButMarks, MarkedIn, Addr, Reached, Noscan;
    if Universe(h0) - m1 == Universe(h0) - m0 {
      forall o | o in m1
        ensures o in m0
      {
        AllocatedSlot(h0, o);
        assert o in Universe(h0);
      }
      assert m1 == m0;
    }
  }
}

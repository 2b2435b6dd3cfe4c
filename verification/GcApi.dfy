/** The interface of the collected heap: allocation by mask, by element or without pointers, the pacing knobs, and the
    program's own stores (crates/llvm_poc/runtime/ubel_rt.c). */
module GcApi {
  import opened Wrappers
  import opened BitWords
  import opened BitTable
  import opened GcHeap
  import opened GcState
  import opened GcSweep
  import opened GcCollect
  import opened GcAlloc
  import opened GcSlots
  import opened GcLarge
  import opened GcObjects

  /** The answer to an allocation: an object, or why the program is stopped. */
  datatype Reply = Given(obj: Obj) | MaskTooWide | BadElement | Overflows | HeapFull

  /** Outside stress mode the allocated bytes never exceed those that survived the last collection, as many again or the
      minimum trigger, and the `n` bytes of the last allocation. */
  ghost predicate WithinPace(g: Gc, n: nat)
    reads g, g.spans
  {
    && g.used <= g.spans.Length
    && (g.stressEvery == 0 ==>
          AllocBytes(g.spans[..], g.used) <= g.lastLive + (if g.lastLive > g.minTrigger then g.lastLive else g.minTrigger) + n)
  }

  lemma PendingPace(g: Gc, o: Obj, n: nat)
    requires Pending(g, o) && Paced(g, n)
    ensures WithinPace(g, n)
  {
    ListSizes(g);
    hide HeapBut, ListsOk, RoomListed, AllocBytes;
  }

  /** What an allocation of `size` bytes with pointer layout `l` does. */
  ghost predicate Gave(h: Heap, roots: seq<Word>, mid: Heap, h': Heap, o: Obj, size: nat, l: Layout) {
    Began(h, roots, mid) && Handed(mid, h', o, size) && Agrees(h', o, l)
  }

  lemma PendingBounds(g: Gc, h: Heap, o: Obj)
    requires Pending(g, o) && Grew(h, g.H(), o)
    ensures var h' := g.H(); o.span < |h'.spans| && Start(h', o) + Words(h', o) < 64 * |h'.bits|
  {
    var h' := g.H();
    InBounds(h', o);
    hide SpansOk, HeapBut, ListsOk, RoomListed, AllocBytes, SameObject, Start, Words, Extent, Allocated;
  }

  /** What a write of pointer bits over the new object must do for the allocation to be complete. */
  ghost predicate BitsDone(h: Heap, b: seq<bv64>, o: Obj, l: Layout) {
    && o.span < |h.spans| && OnlyBits(h.bits, b, Start(h, o), Words(h, o)) && BitsAgree(b, Start(h, o), Words(h, o), l)
    && (Noscan(h, o) ==> NoPointers(b, Start(h, o), Words(h, o)))
  }

  lemma Completed(g: Gc, h0: Heap, roots: seq<Word>, mid: Heap, h1: Heap, o: Obj, size: nat, l: Layout)
    requires Began(h0, roots, mid) && Grew(mid, h1, o) && HeapBut(h1, o.span) && Fits(h1, o, size)
    requires g.H() == h1.(bits := g.bits[..]) && BitsDone(h1, g.bits[..], o, l)
    ensures HeapOk(g.H()) && Gave(h0, roots, mid, g.H(), o, size, l)
  {
    var h2 := g.H();
    hide HeapOk, Handed, Grew, HeapBut, Fits, OnlyBits, BitsAgree, NoPointers, Began;
    Finished(mid, h1, h2, o, size);
  }

  lemma SmallMask(size: nat)
    requires size <= MAX_SMALL
    ensures ClassBytes(SizeClass(size)) / 8 <= 64
  {
    var c := SizeClass(size);
    hide SizeClass;
    assert CLASS_SIZE[9] == 512;
    assert c <= 9;
  }

  /** The largest size that a mask describes: one of as many words as the mask has bits. */
  lemma MaskLimit(size: nat)
    ensures size <= MAX_SMALL <==> forall w: nat :: 8 * w < size ==> w < 64
  {
    assert 8 * 64 < size ==> !(64 < 64);
  }

  /** `ubel_gc_alloc`: a zeroed object whose word `i` is a pointer if bit `i` of the mask is set. */
  method Alloc(g: Gc, size: nat, mask: bv64, roots: seq<Word>) returns (r: Reply, ghost mid: Heap)
    requires Valid(g)
    modifies g, g.spans, g.mem, g.bits
    ensures r.MaskTooWide? <==> size > MAX_SMALL && mask != 0
    ensures r.Given? ==> Valid(g) && Gave(old(g.H()), roots, mid, g.H(), r.obj, size, Mask(mask)) && WithinPace(g, Rounded(size))
    ensures r.Given? ==> Chosen(mid, size, r.obj)
    ensures r.HeapFull? ==> Began(old(g.H()), roots, mid) && Exhausted(mid, size)
    ensures r.Given? || r.HeapFull? || (r.MaskTooWide? && g.H() == old(g.H()))
  {
    hide HeapOk, HeapBut, ListsOk, RoomListed, AllocBytes, Began, Grew, Fits, Exhausted, Chosen, Start, Words, Noscan, Paced, Rounded;
    hide Gave, WithinPace, Has, Bit, Written, Cleared, OnlyBits, BitsAgree, NoPointers, SizeClass, ClassBytes;
    ghost var h0 := g.H();
    if size > MAX_SMALL && mask != 0 {
      return MaskTooWide, h0;
    }
    var o, words;
    o, words, mid := GcObj(g, size, mask == 0, roots);
    if o.None? {
      return HeapFull, mid;
    }
    ghost var h1 := g.H();
    PendingBounds(g, mid, o.value);
    PendingPace(g, o.value, Rounded(size));
    var at := StartOf(g, o.value);
    if size > MAX_SMALL {
      ClearRange(g.bits, at, words);
      ClearedAgrees(h1.bits, g.bits[..], at, words);
    } else {
      FitsWords(h1, o.value, size);
      SmallMask(size);
      Write(g.bits, at, words, mask);
      WrittenAgrees(h1.bits, g.bits[..], at, words, mask);
    }
    Completed(g, h0, roots, mid, h1, o.value, size, Mask(mask));
    r := Given(o.value);
  }

  /** The word of the heap that an object begins at. */
  method StartOf(g: Gc, o: Obj) returns (at: nat)
    requires o.span < g.spans.Length
    ensures at == Start(g.H(), o)
  {
    var s := g.spans[o.span];
    at := if s.state == Large then SPAN_WORDS * o.span else SPAN_WORDS * o.span + o.slot * (s.elem / 8);
  }

  /** `ubel_gc_alloc_noscan`. */
  method AllocNoscan(g: Gc, size: nat, roots: seq<Word>) returns (r: Reply, ghost mid: Heap)
    requires Valid(g)
    modifies g, g.spans, g.mem, g.bits
    ensures r.Given? ==> Valid(g) && Gave(old(g.H()), roots, mid, g.H(), r.obj, size, Mask(0)) && WithinPace(g, Rounded(size))
    ensures r.Given? ==> Chosen(mid, size, r.obj)
    ensures r.HeapFull? ==> Began(old(g.H()), roots, mid) && Exhausted(mid, size)
    ensures r.Given? || r.HeapFull?
  {
    hide *;
    r, mid := Alloc(g, size, 0, roots);
  }

  /** A pointer element must be a whole number of words, at most 64, and its mask must stay inside it. */
  predicate ElementOk(size: nat, mask: bv64) {
    mask == 0 || (size > 0 && size % 8 == 0 && size / 8 <= 64 && (size / 8 < 64 ==> Shr(mask, size / 8) == 0))
  }

  /** An element is accepted exactly if it has no pointers, or is a whole number of words, no more than a mask has bits,
      with every declared pointer inside it. */
  lemma ElementOkIs(size: nat, mask: bv64)
    ensures ElementOk(size, mask) <==>
              (forall j: nat :: !Bit(mask, j)) || (0 < size <= 8 * 64 && size % 8 == 0 && forall j: nat :: Bit(mask, j) ==> 8 * j + 8 <= size)
  {
    NoneSet(mask);
    if size / 8 < 64 {
      NothingAbove(mask, size / 8);
    }
    BitsBelow(mask);
    hide Bit, Shr;
  }

  lemma NoneSet(mask: bv64)
    ensures mask == 0 ==> forall j: nat :: !Bit(mask, j)
    ensures mask != 0 ==> exists j: nat :: Bit(mask, j)
  {
    if j: nat :| Bit(mask, j) {
      ZeroBit(j);
    } else {
      NoBits(mask);
    }
  }

  lemma NothingAbove(mask: bv64, n: nat)
    ensures Shr(mask, n) == 0 <==> forall j: nat :: Bit(mask, j) ==> j < n
  {
    hide Bit, Shr;
    NoneSet(Shr(mask, n));
    if Shr(mask, n) == 0 {
      forall j: nat | Bit(mask, j)
        ensures j < n
      {
        if j >= n {
          ShrBit(mask, n, j - n);
        }
      }
    } else {
      var j: nat :| Bit(Shr(mask, n), j);
      ShrBit(mask, n, j);
    }
  }

  lemma BitsBelow(mask: bv64)
    ensures forall j: nat :: Bit(mask, j) ==> j < 64
  {
    hide Bit;
    forall j: nat | Bit(mask, j)
      ensures j < 64
    {
      if j >= 64 {
        NoBitAbove(mask, j);
      }
    }
  }

  /** The size of an array of `count` elements. */
  function ArrayBytes(size: nat, count: nat): nat {
    size * count
  }

  /** The layout of an array: every element has the declared pointer words. */
  function ArrayLayout(size: nat, count: nat, mask: bv64): Layout {
    if mask == 0 then Mask(0) else Repeat(size / 8, count, mask)
  }

  lemma ArrayWords(size: nat, count: nat)
    requires size % 8 == 0
    ensures ElementWord(count, size / 8, 0) == ArrayBytes(size, count) / 8
  {
    assert size * count == 8 * (count * (size / 8));
  }

  /** `ubel_gc_alloc_array`: an array of elements with the same pointer words each. */
  method AllocArray(g: Gc, size: Word, count: Word, mask: bv64, roots: seq<Word>) returns (r: Reply, ghost mid: Heap)
    requires Valid(g)
    modifies g, g.spans, g.mem, g.bits
    ensures r.Overflows? <==> ArrayBytes(size, count) >= ADDRESSES
    ensures r.BadElement? <==> ArrayBytes(size, count) < ADDRESSES && !ElementOk(size, mask)
    ensures r.Overflows? || r.BadElement? ==> g.H() == old(g.H())
    ensures r.Given? ==> Valid(g) && WithinPace(g, Rounded(ArrayBytes(size, count)))
    ensures r.Given? ==> Gave(old(g.H()), roots, mid, g.H(), r.obj, ArrayBytes(size, count), ArrayLayout(size, count, mask))
    ensures r.Given? ==> Chosen(mid, ArrayBytes(size, count), r.obj)
    ensures r.HeapFull? ==> Began(old(g.H()), roots, mid) && Exhausted(mid, ArrayBytes(size, count))
    ensures !r.MaskTooWide?
  {
    hide HeapOk, HeapBut, ListsOk, RoomListed, AllocBytes, Began, Grew, Fits, Exhausted, Chosen, Start, Words, Noscan, Paced, Rounded;
    hide Gave, WithinPace, Has, Bit, Shr, Cleared, OnlyBits, BitsAgree, NoPointers, SizeClass, ClassBytes, ElementWord, ArrayBytes;
    ghost var h0 := g.H();
    var total := ArrayBytes(size, count);
    if total >= ADDRESSES {
      return Overflows, h0;
    }
    if !ElementOk(size, mask) {
      return BadElement, h0;
    }
    var o, words;
    o, words, mid := GcObj(g, total, mask == 0, roots);
    if o.None? {
      return HeapFull, mid;
    }
    ghost var h1 := g.H();
    PendingBounds(g, mid, o.value);
    PendingPace(g, o.value, Rounded(total));
    var at := StartOf(g, o.value);
    if mask == 0 {
      ClearRange(g.bits, at, words);
      ClearedAgrees(h1.bits, g.bits[..], at, words);
    } else {
      FitsWords(h1, o.value, total);
      ArrayWords(size, count);
      FillElements(g.bits, at, words, size / 8, count, mask);
    }
    Completed(g, h0, roots, mid, h1, o.value, total, ArrayLayout(size, count, mask));
    r := Given(o.value);
  }

  // ---------------------------------------------------------------- the knobs

  /** `ubel_gc_set_min_trigger_kb`. */
  method SetMinTrigger(g: Gc, kb: nat)
    requires Valid(g)
    modifies g`minTrigger, g`trigger
    ensures Valid(g) && Triggered(g) && g.minTrigger == 1024 * (if kb > 0 then kb else 4096)
  {
    hide HeapOk, ListsOk, RoomListed, AllocBytes;
    g.minTrigger := (if kb > 0 then kb else 4096) * 1024;
    g.trigger := Pace(g.lastLive, g.minTrigger, g.stressEvery);
  }

  /** `ubel_gc_set_stress`. */
  method SetStress(g: Gc, every: nat)
    requires Valid(g)
    modifies g`stressEvery, g`stressSkip, g`trigger
    ensures Valid(g) && Triggered(g) && g.stressEvery == every && g.stressSkip == 0
  {
    hide HeapOk, ListsOk, RoomListed, AllocBytes;
    g.stressEvery := every;
    g.stressSkip := 0;
    g.trigger := Pace(g.lastLive, g.minTrigger, g.stressEvery);
  }

  // ---------------------------------------------------------------- the program's stores

  /** The program has written word `w` of object `o`. */
  ghost predicate Stored(h: Heap, h': Heap, o: Obj, w: nat, v: Word) {
    && Sound(h) && Allocated(h, o) && w < Extent(h, o) && Start(h, o) + w < |h.mem|
    && h' == h.(mem := h.mem[Start(h, o) + w := v])
  }

  /** A store lies in no free slot. */
  lemma StoreMisses(h: Heap, o: Obj, w: nat, j: nat, k: nat)
    requires Sound(h) && Allocated(h, o) && w < Extent(h, o) && j < h.used && h.spans[j].state == Small
    requires k < h.spans[j].nelems && k < SLOTS && !Has(h.spans[j].alloc, k)
    ensures var x, s := Start(h, o) + w, h.spans[j]; !(SlotStart(s.elem, j, k) <= x < SlotStart(s.elem, j, k) + s.elem / 8)
  {
    InBounds(h, o);
    assert SpanOk(h.spans, j, h.used);
    assert SpanOk(h.spans, o.span, h.used);
    var s := h.spans[j];
    SlotInSpan(s.cls, j, k);
    hide Has, SpansOk, CLASS_SIZE;
    if o.span == j {
      SlotsApart(s.elem, j, o.slot, k);
    } else {
      hide SlotStart;
      if h.spans[o.span].state == Large && o.span < j {
        assert RunOk(h.spans, o.span, h.spans[o.span].runLen);
      }
    }
  }

  lemma StoreHeap(h: Heap, h': Heap, o: Obj, w: nat, v: Word)
    requires HeapOk(h) && Stored(h, h', o, w, v)
    ensures HeapOk(h')
  {
    HeapParts(h);
    InBounds(h, o);
    forall j: nat | j < h'.used && h'.spans[j].state == Small && !h'.spans[j].needzero
      ensures SlotsZero(h', j)
    {
      assert SlotsZero(h, j);
      var s := h.spans[j];
      forall k: nat | k < s.nelems && k < SLOTS && !Has(s.alloc, k)
        ensures ZeroAt(h'.mem, SlotStart(s.elem, j, k), s.elem / 8)
      {
        StoreMisses(h, o, w, j, k);
        StoreZero(h.mem, Start(h, o) + w, v, SlotStart(s.elem, j, k), s.elem / 8);
        hide *;
      }
      hide SpansOk, Has, SlotStart, Start, Extent;
    }
    StoreZero(h.mem, Start(h, o) + w, v, SPAN_WORDS * h.used, |h.mem|);
    hide SpansOk, Has, SlotsZero, ZeroAt, Start, Extent, MarksClear;
    assert Sound(h');
    assert ZeroOk(h');
    assert NoscanClear(h');
  }

  lemma StoreZero(mem: seq<Word>, x: nat, v: Word, at: nat, n: nat)
    requires x < |mem| && ZeroAt(mem, at, n) && !(at <= x < at + n)
    ensures ZeroAt(mem[x := v], at, n)
  {
  }

  /** A store by the program into an object it holds. */
  method Store(g: Gc, o: Obj, w: nat, v: Word)
    requires Valid(g) && Allocated(g.H(), o) && w < Extent(g.H(), o)
    modifies g.mem
    ensures Valid(g) && Stored(old(g.H()), g.H(), o, w, v)
  {
    hide ListsOk, AllocBytes, HeapOk, Start, Extent, Allocated, Sound;
    ghost var h := g.H();
    HeapParts(h);
    InBounds(h, o);
    AllocatedSpan(h, o);
    var x := StartOf(g, o) ;
    g.mem[x + w] := v;
    assert g.H() == h.(mem := h.mem[x + w := v]);
    StoreHeap(h, g.H(), o, w, v);
  }

  lemma AllocatedSpan(h: Heap, o: Obj)
    requires Sound(h) && Allocated(h, o)
    ensures o.span < |h.spans|
  {
    hide SpansOk;
  }
}

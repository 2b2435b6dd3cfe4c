/** Zeroed objects of any size, and writing their pointer bits (crates/llvm_poc/runtime/ubel_rt.c). */
module GcObjects {
  import opened Wrappers
  import opened BitWords
  import opened BitTable
  import opened GcHeap
  import opened GcState
  import opened GcSweep
  import opened GcCollect
  import opened GcAlloc
  import opened GcSlots
  import opened GcLarge

  // ---------------------------------------------------------------- size classes

  function LeastClass(need: nat, c: nat): (r: nat)
    requires need <= MAX_CLASS && c < NUM_CLASSES
    ensures c <= r < NUM_CLASSES && CLASS_SIZE[r] >= need && forall d: nat :: c <= d < r ==> CLASS_SIZE[d] < need
    decreases NUM_CLASSES - c
  {
    if CLASS_SIZE[c] >= need then c else assert CLASS_SIZE[26] == MAX_CLASS; LeastClass(need, c + 1)
  }

  /** The bytes that row `i` of the table of classes stands for. */
  function RowBytes(i: nat): nat {
    if i > 0 then 16 * i else 16
  }

  lemma BelowNeed(d: nat, size: nat)
    requires d < NUM_CLASSES && CLASS_SIZE[d] < RowBytes((size + 15) / 16)
    ensures CLASS_SIZE[d] < size
  {
    ClassSizes(d);
    hide CLASS_SIZE;
  }

  lemma BelowAll(c: nat, size: nat)
    requires c < NUM_CLASSES && forall d: nat :: d < c ==> CLASS_SIZE[d] < RowBytes((size + 15) / 16)
    ensures forall d: nat :: d < c ==> CLASS_SIZE[d] < size
  {
    forall d: nat | d < c
      ensures CLASS_SIZE[d] < size
    {
      BelowNeed(d, size);
    }
  }

  /** The smallest class that holds `size` bytes. */
  function SizeClass(size: nat): (c: nat)
    requires size <= MAX_CLASS
    ensures c < NUM_CLASSES && CLASS_SIZE[c] >= size && forall d: nat :: d < c ==> CLASS_SIZE[d] < size
  {
    hide CLASS_SIZE;
    var c := LeastClass(RowBytes((size + 15) / 16), 0);
    BelowAll(c, size);
    c
  }

  function ClassBytes(c: nat): (e: nat)
    requires c < NUM_CLASSES
    ensures e == CLASS_SIZE[c] && 16 <= e <= SPAN_SIZE && e % 16 == 0
  {
    ClassSizes(c);
    CLASS_SIZE[c]
  }

  /** The table of classes that initialisation builds, one row per 16 bytes. */
  method SizeTable() returns (t: seq<nat>)
    ensures |t| == MAX_CLASS / 16 + 1 && forall size: nat :: size <= MAX_CLASS ==> t[(size + 15) / 16] == SizeClass(size)
  {
    hide LeastClass;
    t := [];
    for i := 0 to MAX_CLASS / 16 + 1
      invariant |t| == i && forall j: nat :: j < i ==> t[j] == LeastClass(RowBytes(j), 0)
    {
      var c := FindClass(RowBytes(i));
      t := t + [c];
    }
  }

  method FindClass(need: nat) returns (c: nat)
    requires need <= MAX_CLASS
    ensures c == LeastClass(need, 0)
  {
    c := 0;
    while CLASS_SIZE[c] < need
      invariant c < NUM_CLASSES && LeastClass(need, c) == LeastClass(need, 0)
      decreases NUM_CLASSES - c
    {
      assert CLASS_SIZE[26] == MAX_CLASS;
      c := c + 1;
    }
  }

  /** The bytes an allocation is counted as. */
  function Rounded(size: nat): nat {
    if size > MAX_CLASS then SPAN_SIZE * SpansFor(size) else ClassBytes(SizeClass(size))
  }

  // ---------------------------------------------------------------- an object without its pointer bits

  /** Object `o` holds `size` zero bytes. */
  ghost predicate Fits(h: Heap, o: Obj, size: nat) {
    && o.span < |h.spans| && Zeroed(h.mem, Start(h, o), size) && size / 8 <= Words(h, o) && size <= 8 * Extent(h, o)
    && (size <= MAX_CLASS ==> h.spans[o.span].state == Small && Words(h, o) == ClassBytes(SizeClass(size)) / 8)
    && (size > MAX_CLASS ==> h.spans[o.span].state == Large && Words(h, o) == size / 8)
  }

  /** Neither a slot, nor free spans, nor heap that was never used is left for an object of `size` bytes. */
  ghost predicate Exhausted(h: Heap, size: nat) {
    if size > MAX_CLASS then size > SPAN_SIZE * |h.spans| || NoRoom(h, SpansFor(size)) else NoSlot(h, SizeClass(size))
  }

  /** Where an object of `size` bytes is put: the lowest free run of spans, or the lowest free slot of the smallest class
      that holds it. */
  ghost predicate Chosen(h: Heap, size: nat, o: Obj) {
    if size > MAX_CLASS then FirstFit(h, SpansFor(size), o.span) else BestSlot(h, SizeClass(size), o)
  }

  /** An allocation is refused exactly if nothing is left: where a place is chosen, something was. */
  lemma ChosenIsLeft(h: Heap, size: nat, o: Obj)
    requires h.used <= |h.spans| && Chosen(h, size, o)
    ensures !Exhausted(h, size)
  {
    hide SizeClass, RoomIn, TakenBelow;
    if size > MAX_CLASS {
      var n := SpansFor(size);
      assert FreeRun(h.spans, h.used, o.span, n) || o.span + n <= |h.spans|;
    } else {
      BestIsLeft(h, SizeClass(size), o);
    }
  }

  lemma WholeWords(size: nat, e: nat)
    requires size <= e && e % 16 == 0
    ensures size / 8 <= (size + 7) / 8 <= e / 8 && size <= 8 * (e / 8)
  {
    var q := e / 16;
    assert e == 16 * q;
    assert e / 8 == 2 * q;
    assert (size + 7) / 8 <= 2 * q;
  }

  lemma SlotFitsSize(h: Heap, o: Obj, size: nat)
    requires size <= MAX_CLASS && o.span < |h.spans| && h.spans[o.span].state == Small
    requires ZeroAt(h.mem, Start(h, o), Words(h, o)) && Extent(h, o) == ClassBytes(SizeClass(size)) / 8
    ensures Fits(h, o, size)
  {
    hide SizeClass, ClassBytes, CLASS_SIZE, ZeroAt, Zeroed, Start;
    var c := SizeClass(size);
    var e := ClassBytes(c);
    WholeWords(size, e);
    ZeroPart(h.mem, Start(h, o), Words(h, o), Start(h, o), (size + 7) / 8);
    ZeroWhole(h.mem, Start(h, o), size);
  }

  lemma RunFitsSize(h: Heap, h': Heap, o: Obj, size: nat, noscan: bool)
    requires Sound(h) && Sound(h') && Ran(h, h', o.span, SpansFor(size), size, noscan) && o.slot == 0 && size > MAX_CLASS
    ensures Fits(h', o, size) && (Noscan(h', o) ==> noscan)
  {
    var n := SpansFor(size);
    RanGrew(h, h', o.span, n, size, noscan);
    assert h'.spans[o.span] == RunSpan(h.spans[o.span], o.span, n, o.span, size, noscan);
    hide Grew, OnlyZeroed, Sound, SpansFor, Zeroed;
  }

  lemma SlotPending(g: Gc, o: Obj)
    requires Valid(g)
    ensures Pending(g, o)
  {
    var h := g.H();
    HeapParts(h);
    NoscanButAll(h, o.span);
    HeapButParts(h, o.span);
    hide HeapOk, HeapBut, ListsOk, RoomListed, AllocBytes;
  }

  lemma NoscanButAll(h: Heap, i: nat)
    ensures HeapOk(h) ==> Shape(h) && NoscanBut(h, i)
  {
    hide SpansOk, MarksClear, ZeroOk, NoPointers;
  }

  lemma PendingSound(g: Gc, o: Obj)
    requires Pending(g, o)
    ensures Sound(g.H())
  {
    hide Sound, MarksClear, ZeroOk, NoscanBut, ListsOk, RoomListed, AllocBytes;
  }

  /** `gc_obj`: a zeroed object of any size, and how many words of the pointer bitmap belong to it. */
  method GcObj(g: Gc, size: nat, noscan: bool, roots: seq<Word>) returns (r: Option<Obj>, words: nat, ghost mid: Heap)
    requires Valid(g)
    modifies g, g.spans, g.mem
    ensures Began(old(g.H()), roots, mid)
    ensures r.Some? ==> Pending(g, r.value) && Grew(mid, g.H(), r.value) && Fits(g.H(), r.value, size) && Paced(g, Rounded(size))
    ensures r.Some? ==> words == Words(g.H(), r.value) && (Noscan(g.H(), r.value) ==> noscan)
    ensures if r.Some? then Chosen(mid, size, r.value) else Exhausted(mid, size)
  {
    hide HeapOk, HeapBut, Quiet, ListsOk, RoomListed, AllocBytes, Collected, Grew, Fits, NoSlot, BestSlot, NoRoom, FirstFit, Ran, SpansFor, SizeClass, ClassBytes;
    hide Start, Words, Extent, ZeroAt, Sound;
    words := 0;
    ghost var h := g.H();
    if size > MAX_CLASS {
      r, mid := AllocLarge(g, size, noscan, roots);
      if r.Some? {
        var o := r.value;
        BeganSound(h, roots, mid);
        PendingSound(g, o);
        RunFitsSize(mid, g.H(), o, size, noscan);
        RanGrew(mid, g.H(), o.span, SpansFor(size), size, noscan);
        FitsWords(g.H(), o, size);
        words := size / 8;
      }
    } else {
      var c := SizeClass(size);
      r, mid := GcSlot(g, c, roots);
      if r.Some? {
        var o := r.value;
        SlotPending(g, o);
        GrewSpan(mid, g.H(), o);
        SlotFitsSize(g.H(), o, size);
        FitsWords(g.H(), o, size);
        words := ClassBytes(c) / 8;
      }
    }
  }

  lemma BeganSound(h: Heap, roots: seq<Word>, mid: Heap)
    requires HeapOk(h) && Began(h, roots, mid)
    ensures Sound(mid)
  {
    HeapParts(h);
    hide HeapOk, Sound, Reached, Allocated;
  }

  lemma GrewSpan(h: Heap, h': Heap, o: Obj)
    requires Grew(h, h', o)
    ensures o.span < |h'.spans|
  {
    hide SpansOk, SameObject;
  }

  lemma FitsWords(h: Heap, o: Obj, size: nat)
    requires Fits(h, o, size)
    ensures o.span < |h.spans|
    ensures size <= MAX_CLASS ==> Words(h, o) == ClassBytes(SizeClass(size)) / 8 && !Noscan(h, o)
    ensures size > MAX_CLASS ==> Words(h, o) == size / 8
    ensures size / 8 <= Words(h, o)
  {
    hide Zeroed, Words, Start, Extent, SizeClass, ClassBytes, CLASS_SIZE;
  }

  // ---------------------------------------------------------------- pointer bits

  /** Which words of an object its allocation declares to be pointers. */
  datatype Layout = Mask(mask: bv64) | Repeat(words: nat, count: nat, mask: bv64)

  predicate Declared(l: Layout, w: nat) {
    match l
    case Mask(m) => Bit(m, w)
    case Repeat(ew, count, m) => ew > 0 && w < count * ew && Bit(m, w % ew)
  }

  /** The pointer bits of words `at` to `at + n - 1` are the declared ones. */
  ghost predicate BitsAgree(bits: seq<bv64>, at: nat, n: nat, l: Layout) {
    forall w: nat :: w < n && at + w < 64 * |bits| ==> (Has(bits, at + w) <==> Declared(l, w))
  }

  ghost predicate OnlyBits(b: seq<bv64>, b': seq<bv64>, at: nat, n: nat) {
    |b'| == |b| && forall k: nat :: k < 64 * |b| && !(at <= k < at + n) ==> (Has(b', k) <==> Has(b, k))
  }

  /** The pointer bits over the object are what they were. */
  ghost predicate PointerBitsKept(h: Heap, h': Heap, o: Obj)
    requires o.span < |h.spans|
  {
    && |h'.bits| == |h.bits|
    && forall k: nat :: Start(h, o) <= k < Start(h, o) + Words(h, o) && k < 64 * |h.bits| ==> (Has(h'.bits, k) <==> Has(h.bits, k))
  }

  lemma ClearedAgrees(b: seq<bv64>, b': seq<bv64>, at: nat, n: nat)
    requires Cleared(b, b', at, n)
    ensures OnlyBits(b, b', at, n) && BitsAgree(b', at, n, Mask(0)) && NoPointers(b', at, n)
  {
    hide Has, Bit;
    forall w: nat
      ensures !Bit(0, w)
    {
      ZeroBit(w);
    }
  }

  lemma WrittenAgrees(b: seq<bv64>, b': seq<bv64>, at: nat, n: nat, mask: bv64)
    requires Written(b, b', at, n, mask)
    ensures OnlyBits(b, b', at, n) && BitsAgree(b', at, n, Mask(mask))
  {
    hide Has, Bit;
  }

  // ---------------------------------------------------------------- an object is handed out

  /** Object `o` of `size` bytes is new; it is zero, aligned to 16 bytes, and apart from all other objects, which keep
      their words and pointer bits. */
  ghost predicate Handed(h: Heap, h': Heap, o: Obj, size: nat) {
    && Sound(h) && Sound(h') && h'.base == h.base && |h'.spans| == |h.spans|
    && Allocated(h', o) && !Allocated(h, o)
    && Zeroed(h'.mem, Start(h', o), size) && size <= 8 * Extent(h', o) && Start(h', o) % 2 == 0
    && forall p :: (p != o ==> (Allocated(h', p) <==> Allocated(h, p))) && (Allocated(h, p) ==> SameObject(h, h', p) && PointerBitsKept(h, h', p))
  }

  ghost predicate Agrees(h: Heap, o: Obj, l: Layout) {
    o.span < |h.spans| && BitsAgree(h.bits, Start(h, o), Words(h, o), l)
  }

  lemma Even(k: nat, d: nat)
    ensures (k * (2 * d)) % 2 == 0
  {
    assert k * (2 * d) == 2 * (k * d);
  }

  lemma SlotEven(elem: nat, i: nat, k: nat)
    requires elem % 16 == 0
    ensures SlotStart(elem, i, k) % 2 == 0
  {
    var d := elem / 16;
    Even(k, d);
    assert elem / 8 == 2 * d;
  }

  lemma StartEven(h: Heap, o: Obj)
    requires Sound(h) && Allocated(h, o)
    ensures Start(h, o) % 2 == 0
  {
    var s := h.spans[o.span];
    assert SpanOk(h.spans, o.span, h.used);
    if s.state == Small {
      ClassSizes(s.cls);
      hide CLASS_SIZE, Has, SpansOk, SlotStart;
      SlotEven(s.elem, o.span, o.slot);
    }
  }

  lemma BitsKept(h1: Heap, h2: Heap, o: Obj, p: Obj)
    requires Sound(h1) && Allocated(h1, o) && Allocated(h1, p) && p != o && h2 == h1.(bits := h2.bits)
    requires OnlyBits(h1.bits, h2.bits, Start(h1, o), Words(h1, o))
    ensures PointerBitsKept(h1, h2, p)
  {
    Disjoint(h1, o, p);
    InBounds(h1, o);
    InBounds(h1, p);
    hide Sound, Allocated, Has, Start, Words, Extent;
  }

  lemma BitsSound(h1: Heap, h2: Heap)
    requires Sound(h1) && MarksClear(h1.spans) && ZeroOk(h1) && h2 == h1.(bits := h2.bits) && |h2.bits| == |h1.bits|
    ensures Sound(h2) && MarksClear(h2.spans) && ZeroOk(h2)
    ensures forall p :: Allocated(h2, p) <==> Allocated(h1, p)
  {
    hide SpansOk, MarksClear, ZeroAt, Has;
    forall i: nat | i < h2.used && h2.spans[i].state == Small && !h2.spans[i].needzero
      ensures SlotsZero(h2, i)
    {
      assert SlotsZero(h1, i);
    }
  }

  lemma BitsNoscan(h1: Heap, h2: Heap, o: Obj)
    requires Sound(h1) && Sound(h2) && NoscanBut(h1, o.span) && Allocated(h1, o) && h2 == h1.(bits := h2.bits)
    requires OnlyBits(h1.bits, h2.bits, Start(h1, o), Words(h1, o)) && (Noscan(h1, o) ==> NoPointers(h2.bits, Start(h1, o), Words(h1, o)))
    ensures NoscanClear(h2)
  {
    forall j: nat | j < h2.used && h2.spans[j].state == Large && h2.spans[j].noscan
      ensures NoPointers(h2.bits, SPAN_WORDS * j, h2.spans[j].objBytes / 8)
    {
      hide SpansOk, Has;
      if j != o.span {
        var p := Obj(j, 0);
        BitsKept(h1, h2, o, p);
        assert NoPointers(h1.bits, SPAN_WORDS * j, h1.spans[j].objBytes / 8);
      }
    }
  }

  lemma GrewParts(h: Heap, h': Heap, o: Obj)
    requires Grew(h, h', o)
    ensures Sound(h) && Sound(h') && h'.base == h.base && h'.bits == h.bits && |h'.spans| == |h.spans|
    ensures Allocated(h', o) && !Allocated(h, o)
    ensures forall p :: (p != o ==> (Allocated(h', p) <==> Allocated(h, p))) && (Allocated(h, p) ==> p != o && SameObject(h, h', p))
  {
    hide Sound, SameObject, Allocated;
  }

  /** Writing the pointer bits completes the allocation. */
  lemma Finished(h: Heap, h1: Heap, h2: Heap, o: Obj, size: nat)
    requires Grew(h, h1, o) && HeapBut(h1, o.span) && Fits(h1, o, size) && h2 == h1.(bits := h2.bits)
    requires o.span < |h1.spans| && OnlyBits(h1.bits, h2.bits, Start(h1, o), Words(h1, o))
    requires Noscan(h1, o) ==> NoPointers(h2.bits, Start(h1, o), Words(h1, o))
    ensures HeapOk(h2) && Handed(h, h2, o, size)
  {
    GrewParts(h, h1, o);
    BitsSound(h1, h2);
    BitsNoscan(h1, h2, o);
    HeapParts(h2);
    StartEven(h1, o);
    forall p | Allocated(h, p)
      ensures SameObject(h, h2, p) && PointerBitsKept(h, h2, p)
    {
      BitsKept(h1, h2, o, p);
      KeptBits(h, h1, h2, p);
      hide *;
    }
    hide Sound, MarksClear, ZeroOk, NoscanClear, Grew, Allocated, SameObject, PointerBitsKept, OnlyBits, NoPointers, Noscan, HeapBut;
  }

  lemma KeptBits(h: Heap, h1: Heap, h2: Heap, p: Obj)
    requires SameObject(h, h1, p) && h1.bits == h.bits && h2 == h1.(bits := h2.bits) && p.span < |h1.spans| && PointerBitsKept(h1, h2, p)
    ensures SameObject(h, h2, p) && PointerBitsKept(h, h2, p)
  {
    hide Has;
  }

  // ---------------------------------------------------------------- elements

  /** Word `j` of element `i`. */
  function ElementWord(i: nat, ew: nat, j: nat): nat {
    i * ew + j
  }

  lemma ElementNext(i: nat, ew: nat)
    ensures ElementWord(i, ew, ew) == ElementWord(i + 1, ew, 0)
    ensures forall j: nat :: ElementWord(i, ew, j) == ElementWord(i, ew, 0) + j
  {
  }

  lemma ElementsGrow(a: nat, b: nat, ew: nat)
    requires a <= b
    ensures ElementWord(a, ew, 0) <= ElementWord(b, ew, 0)
  {
    assert (b - a) * ew >= 0;
  }

  /** The bits of the first `i` elements from word `at` on repeat `mask`. */
  ghost predicate Repeated(bits: seq<bv64>, at: nat, i: nat, ew: nat, mask: bv64) {
    forall w: nat :: w < ElementWord(i, ew, 0) && at + w < 64 * |bits| && ew > 0 ==> (Has(bits, at + w) <==> Bit(mask, w % ew))
  }

  lemma InElement(w: nat, i: nat, ew: nat)
    requires ew > 0 && ElementWord(i, ew, 0) <= w < ElementWord(i + 1, ew, 0)
    ensures w % ew == w - ElementWord(i, ew, 0)
  {
    ModUnique(w, i, w - i * ew, ew);
  }

  lemma AtLeast(n: int, d: int)
    requires d > 0 && n > 0
    ensures n * d >= d
  {
    assert n * d == (n - 1) * d + d && (n - 1) * d >= 0;
  }

  lemma Distinct(a: int, b: int, d: int)
    requires d > 0 && a != b
    ensures a * d - b * d >= d || b * d - a * d >= d
  {
    if a > b {
      AtLeast(a - b, d);
    } else {
      AtLeast(b - a, d);
    }
    assert (a - b) * d == a * d - b * d && (b - a) * d == b * d - a * d;
  }

  lemma Division(w: nat, d: nat)
    requires d > 0
    ensures w == (w / d) * d + w % d && w % d < d
  {
  }

  lemma ModUnique(w: nat, q: nat, r: nat, d: nat)
    requires d > 0 && r < d && w == q * d + r
    ensures w % d == r && w / d == q
  {
    Division(w, d);
    var p, m := w / d, w % d;
    if p != q {
      Distinct(q, p, d);
    }
  }

  lemma RepeatNext(b: seq<bv64>, b': seq<bv64>, at: nat, i: nat, ew: nat, mask: bv64)
    requires ew > 0 && Repeated(b, at, i, ew, mask) && Written(b, b', at + ElementWord(i, ew, 0), ew, mask)
    ensures Repeated(b', at, i + 1, ew, mask)
  {
    hide Has, Bit, ElementWord;
    ElementNext(i, ew);
    forall w: nat | w < ElementWord(i + 1, ew, 0) && at + w < 64 * |b'|
      ensures Has(b', at + w) <==> Bit(mask, w % ew)
    {
      if w >= ElementWord(i, ew, 0) {
        InElement(w, i, ew);
      }
    }
  }

  lemma OnlyMore(b: seq<bv64>, b1: seq<bv64>, b2: seq<bv64>, at: nat, m: nat, x: nat, n: nat)
    requires OnlyBits(b, b1, at, m) && OnlyBits(b1, b2, x, n) && at <= x && x + n <= at + m
    ensures OnlyBits(b, b2, at, m)
  {
    hide Has;
  }

  lemma OnlyNone(b: seq<bv64>, at: nat, n: nat)
    ensures OnlyBits(b, b, at, n)
  {
  }

  lemma RepeatEnd(b: seq<bv64>, b': seq<bv64>, at: nat, words: nat, count: nat, ew: nat, mask: bv64)
    requires ew > 0 && Repeated(b, at, count, ew, mask) && ElementWord(count, ew, 0) <= words
    requires Cleared(b, b', at + ElementWord(count, ew, 0), words - ElementWord(count, ew, 0))
    ensures BitsAgree(b', at, words, Repeat(ew, count, mask))
  {
    hide Has, Bit;
  }

  /** The pointer bits of an array: the mask of each element, then none in the slack of the slot. */
  method FillElements(a: array<bv64>, at: nat, words: nat, ew: nat, count: nat, mask: bv64)
    requires 0 < ew <= 64 && ElementWord(count, ew, 0) <= words && at + words < 64 * a.Length
    modifies a
    ensures OnlyBits(old(a[..]), a[..], at, words) && BitsAgree(a[..], at, words, Repeat(ew, count, mask))
  {
    hide ElementWord, Has, Bit, OnlyBits, Written, Cleared, BitsAgree, Repeated;
    ghost var b := a[..];
    OnlyNone(b, at, words);
    RepeatNone(b, at, ew, mask);
    for i := 0 to count
      invariant OnlyBits(b, a[..], at, words) && Repeated(a[..], at, i, ew, mask)
    {
      ghost var before := a[..];
      ElementsGrow(i + 1, count, ew);
      ElementNext(i, ew);
      var x := at + ElementWord(i, ew, 0);
      Write(a, x, ew, mask);
      WrittenAgrees(before, a[..], x, ew, mask);
      RepeatNext(before, a[..], at, i, ew, mask);
      OnlyMore(b, before, a[..], at, words, x, ew);
    }
    ghost var before := a[..];
    var end := at + ElementWord(count, ew, 0);
    ClearRange(a, end, at + words - end);
    ClearedAgrees(before, a[..], end, at + words - end);
    OnlyMore(b, before, a[..], at, words, end, at + words - end);
    RepeatEnd(before, a[..], at, words, count, ew, mask);
  }

  lemma RepeatNone(bits: seq<bv64>, at: nat, ew: nat, mask: bv64)
    ensures Repeated(bits, at, 0, ew, mask)
  {
  }
}

/** The collected heap: spans, objects, what a word points to, and what the roots reach
    (crates/llvm_poc/runtime/ubel_rt.c, for 64-bit targets). */
module GcHeap {
  import opened Wrappers
  import opened BitWords
  import opened BitTable

  const SPAN_SIZE: nat := 32768
  const SPAN_WORDS: nat := 4096
  const SLOTS: nat := 2048
  const NUM_CLASSES: nat := 27
  const MAX_CLASS: nat := 32768
  const MAX_SMALL: nat := 512
  const ADDRESSES: nat := 0x1_0000_0000_0000_0000

  const CLASS_SIZE: seq<nat> := [
    16, 32, 48, 64, 96, 128, 192, 256, 384, 512,
    640, 768, 896, 1024, 1280, 1536, 1792, 2048, 2560, 3072, 4096, 5120, 6144, 8192, 10240,
    16384, 32768]

  /** A pointer-sized word. */
  type Word = w: int | 0 <= w < ADDRESSES

  datatype SpanState = Free | Small | Large | Cont

  /** A span holds slots of one class, or begins or continues the run of a large object. */
  datatype Span = Span(
    state: SpanState,
    cls: nat,
    needzero: bool,
    noscan: bool,
    elem: nat,
    nelems: nat,
    freeindex: nat,
    runLen: nat,
    headIdx: nat,
    objBytes: nat,
    alloc: seq<bv64>,
    mark: seq<bv64>)

  /** The reserved heap; spans below `used` have been used at least once. */
  datatype Heap = Heap(base: Word, spans: seq<Span>, used: nat, mem: seq<Word>, bits: seq<bv64>)

  // ---------------------------------------------------------------- well-formed heaps

  predicate TableOk(s: Span) {
    |s.alloc| == |s.mark| == 32
  }

  /** The heap tables have the sizes that initialisation gives them. */
  ghost predicate Shape(h: Heap) {
    && h.used <= |h.spans| && |h.mem| == SPAN_WORDS * |h.spans| && 64 * |h.bits| >= |h.mem| + 64
    && h.base + SPAN_SIZE * |h.spans| <= ADDRESSES
    && forall i :: 0 <= i < |h.spans| ==> TableOk(h.spans[i])
  }

  ghost predicate SmallOk(s: Span) {
    && TableOk(s) && s.cls < NUM_CLASSES && s.elem == CLASS_SIZE[s.cls] && s.nelems == SPAN_SIZE / s.elem
    && s.freeindex <= s.nelems
    && (forall k: nat :: s.nelems <= k < SLOTS ==> !Has(s.alloc, k))
    && (forall k: nat :: k < s.freeindex && k < SLOTS ==> Has(s.alloc, k))
  }

  /** A run of `n` spans that starts at span `i`. */
  ghost predicate RunOk(spans: seq<Span>, i: nat, n: nat) {
    && i + n <= |spans|
    && forall j: nat :: i < j < i + n ==> spans[j].state == Cont && spans[j].headIdx == i
  }

  ghost predicate LargeOk(spans: seq<Span>, i: nat, used: nat)
    requires i < |spans|
  {
    var s := spans[i];
    && s.runLen >= 2 && i + s.runLen <= used && RunOk(spans, i, s.runLen)
    && SPAN_SIZE * (s.runLen - 1) < s.objBytes <= SPAN_SIZE * s.runLen
  }

  ghost predicate ContOk(spans: seq<Span>, i: nat)
    requires i < |spans|
  {
    var hi := spans[i].headIdx;
    hi < i && spans[hi].state == Large && i < hi + spans[hi].runLen
  }

  ghost predicate SpanOk(spans: seq<Span>, i: nat, used: nat)
    requires i < |spans|
  {
    match spans[i].state
    case Free => true
    case Small => SmallOk(spans[i])
    case Large => LargeOk(spans, i, used)
    case Cont => ContOk(spans, i)
  }

  ghost predicate SpansOk(spans: seq<Span>, used: nat) {
    && used <= |spans|
    && (forall i: nat :: i < used ==> SpanOk(spans, i, used))
    && (forall i: nat :: used <= i < |spans| ==> spans[i].state == Free)
  }

  ghost predicate Sound(h: Heap) {
    Shape(h) && SpansOk(h.spans, h.used)
  }

  ghost predicate NoMarks(s: Span) {
    TableOk(s) && forall k: nat :: k < SLOTS ==> !Has(s.mark, k)
  }

  ghost predicate MarksClear(spans: seq<Span>) {
    forall i :: 0 <= i < |spans| ==> NoMarks(spans[i])
  }

  // ---------------------------------------------------------------- objects

  /** An object: a slot of a span, or slot 0 of the first span of a large object's run. */
  datatype Obj = Obj(span: nat, slot: nat)

  ghost predicate Allocated(h: Heap, o: Obj)
    requires Shape(h)
  {
    && o.span < h.used
    && var s := h.spans[o.span];
       match s.state
       case Small => o.slot < s.nelems && o.slot < SLOTS && Has(s.alloc, o.slot)
       case Large => o.slot == 0
       case _ => false
  }

  /** The word of the heap at which slot `k` of a span begins. */
  function SlotStart(elem: nat, i: nat, k: nat): nat {
    SPAN_WORDS * i + k * (elem / 8)
  }

  function Start(h: Heap, o: Obj): nat
    requires o.span < |h.spans|
  {
    if h.spans[o.span].state == Large then SPAN_WORDS * o.span else SlotStart(h.spans[o.span].elem, o.span, o.slot)
  }

  /** The whole words of an object. */
  function Words(h: Heap, o: Obj): nat
    requires o.span < |h.spans|
  {
    var s := h.spans[o.span];
    if s.state == Large then s.objBytes / 8 else s.elem / 8
  }

  /** The words an object keeps to itself: its slot, or its run of spans. */
  function Extent(h: Heap, o: Obj): nat
    requires o.span < |h.spans|
  {
    var s := h.spans[o.span];
    if s.state == Large then SPAN_WORDS * s.runLen else s.elem / 8
  }

  function Addr(h: Heap, o: Obj): int
    requires o.span < |h.spans|
  {
    h.base + 8 * Start(h, o)
  }

  // ---------------------------------------------------------------- pointers

  /** The distance of an address from the heap base; it wraps around below the base. */
  function Offset(h: Heap, p: Word): nat {
    if p >= h.base then p - h.base else p - h.base + ADDRESSES
  }

  /** The slot of its span that an offset lies in. */
  function SlotAt(off: nat, elem: nat): nat
    requires elem > 0
  {
    (off % SPAN_SIZE) / elem
  }

  /** Where slot `k` of span `i` begins, in bytes. */
  function SlotOffset(i: nat, k: nat, elem: nat): nat {
    SPAN_SIZE * i + k * elem
  }

  /** The allocated object that a word points to: at it or into it, but not past the end of a large one. */
  ghost function Points(h: Heap, p: Word): Option<Obj>
    requires Sound(h)
  {
    var off := Offset(h, p);
    if off >= SPAN_SIZE * h.used then None
    else
      var i := off / SPAN_SIZE;
      var s := h.spans[i];
      match s.state
      case Free => None
      case Small =>
        assert SpanOk(h.spans, i, h.used);
        var k := SlotAt(off, ElemOf(s));
        if k < s.nelems && k < SLOTS && Has(s.alloc, k) then Some(Obj(i, k)) else None
      case Large => if off - SPAN_SIZE * i < s.objBytes then Some(Obj(i, 0)) else None
      case Cont =>
        assert SpanOk(h.spans, i, h.used);
        var hi := s.headIdx;
        if off - SPAN_SIZE * hi < h.spans[hi].objBytes then Some(Obj(hi, 0)) else None
  }

  lemma ClassSizes(c: nat)
    requires c < NUM_CLASSES
    ensures var e := CLASS_SIZE[c]; 16 <= e <= SPAN_SIZE && e % 16 == 0 && 1 <= SPAN_SIZE / e <= SLOTS && e * (SPAN_SIZE / e) <= SPAN_SIZE
  {
  }

  /** The slot size of a small span, which is never zero. */
  function ElemOf(s: Span): (e: nat)
    requires s.cls < NUM_CLASSES && s.elem == CLASS_SIZE[s.cls]
    ensures e == s.elem && 16 <= e <= SPAN_SIZE
  {
    ClassSizes(s.cls);
    s.elem
  }

  /** The bytes of an object that a word may point into: its whole slot, or a large object up to its end. */
  function Bytes(h: Heap, o: Obj): nat
    requires o.span < |h.spans|
  {
    var s := h.spans[o.span];
    if s.state == Large then s.objBytes else s.elem
  }

  /** Which words point to an object: those that are the address of one of its bytes, and no others. */
  lemma PointsInto(h: Heap, p: Word, o: Obj)
    requires Sound(h)
    ensures Points(h, p) == Some(o) <==> Allocated(h, o) && Addr(h, o) <= p < Addr(h, o) + Bytes(h, o)
  {
    if Points(h, p) == Some(o) {
      PointsInside(h, p, o);
    }
    if Allocated(h, o) && Addr(h, o) <= p < Addr(h, o) + Bytes(h, o) {
      InsidePoints(h, p, o);
    }
  }

  /** The slot that a byte of a span lies in, by multiplication. */
  lemma SlotOf(off: nat, i: nat, e: nat, k: nat)
    requires e > 0 && SPAN_SIZE * i <= off < SPAN_SIZE * (i + 1)
    ensures off / SPAN_SIZE == i && off % SPAN_SIZE == off - SPAN_SIZE * i
    ensures SlotAt(off, e) == k <==> k * e <= off - SPAN_SIZE * i < k * e + e
  {
    var r := off - SPAN_SIZE * i;
    SpanOf(off, i);
    Quotient(r, e, k);
  }

  lemma SpanOf(off: nat, i: nat)
    requires SPAN_SIZE * i <= off < SPAN_SIZE * (i + 1)
    ensures off / SPAN_SIZE == i && off % SPAN_SIZE == off - SPAN_SIZE * i
  {
  }

  lemma Quotient(r: nat, e: nat, k: nat)
    requires e > 0
    ensures r / e == k <==> k * e <= r < k * e + e
  {
    var q := r / e;
    assert r == q * e + r % e;
    if q < k {
      assert (q + 1) * e <= k * e;
    } else if q > k {
      assert (k + 1) * e <= q * e;
    }
  }

  lemma SmallStart(s: Span, i: nat, k: nat)
    requires SmallOk(s)
    ensures 16 <= s.elem <= SPAN_SIZE && 8 * SlotStart(s.elem, i, k) == SPAN_SIZE * i + k * s.elem && s.nelems <= SLOTS
    ensures k < s.nelems ==> k * s.elem + s.elem <= SPAN_SIZE
  {
    hide Has;
    ClassSizes(s.cls);
    hide CLASS_SIZE;
    assert s.elem == 8 * (s.elem / 8);
    Eightfold(k, s.elem / 8);
    if k < s.nelems {
      assert (k + 1) * s.elem <= s.nelems * s.elem;
    }
  }

  lemma Eightfold(k: nat, d: nat)
    ensures 8 * (k * d) == k * (8 * d)
  {
  }

  lemma PointsInside(h: Heap, p: Word, o: Obj)
    requires Sound(h) && Points(h, p) == Some(o)
    ensures Allocated(h, o) && Addr(h, o) <= p < Addr(h, o) + Bytes(h, o)
  {
    hide Has, SmallOk, SlotAt, SlotStart;
    var off := Offset(h, p);
    var i := off / SPAN_SIZE;
    assert SpanOk(h.spans, i, h.used);
    if h.spans[i].state == Small {
      var s := h.spans[i];
      SmallStart(s, i, o.slot);
      SlotOf(off, i, s.elem, o.slot);
    }
  }

  lemma InsidePoints(h: Heap, p: Word, o: Obj)
    requires Sound(h) && Allocated(h, o) && Addr(h, o) <= p < Addr(h, o) + Bytes(h, o)
    ensures Points(h, p) == Some(o)
  {
    hide Has, SmallOk, SlotAt, SlotStart;
    var off := p - h.base;
    var s := h.spans[o.span];
    assert SpanOk(h.spans, o.span, h.used);
    if s.state == Small {
      SmallStart(s, o.span, o.slot);
      SlotOf(off, o.span, s.elem, o.slot);
    } else {
      var i := off / SPAN_SIZE;
      SpanOf(off, i);
      if i != o.span {
        assert h.spans[i].state == Cont && h.spans[i].headIdx == o.span;
      }
    }
  }

  /** Word `w` of object `o` is a pointer word that points to `p`. */
  ghost predicate EdgeAt(h: Heap, o: Obj, w: nat, p: Obj)
    requires Sound(h) && Allocated(h, o)
  {
    && w < Words(h, o) && Start(h, o) + w < |h.mem|
    && Has(h.bits, Start(h, o) + w) && Points(h, h.mem[Start(h, o) + w]) == Some(p)
  }

  ghost predicate Edge(h: Heap, o: Obj, p: Obj)
    requires Sound(h)
  {
    Allocated(h, o) && exists w: nat :: EdgeAt(h, o, w, p)
  }

  ghost predicate IsRoot(h: Heap, roots: seq<Word>, o: Obj)
    requires Sound(h)
  {
    exists i :: 0 <= i < |roots| && Points(h, roots[i]) == Some(o)
  }

  /** A chain of pointers from a root to `path`'s last object. */
  ghost predicate Chain(h: Heap, roots: seq<Word>, path: seq<Obj>)
    requires Sound(h)
  {
    && |path| > 0 && IsRoot(h, roots, path[0])
    && forall i :: 0 <= i < |path| - 1 ==> Edge(h, path[i], path[i + 1])
  }

  ghost predicate Reached(h: Heap, roots: seq<Word>, o: Obj)
    requires Sound(h)
  {
    exists path: seq<Obj> :: Chain(h, roots, path) && path[|path| - 1] == o
  }

  lemma ReachRoot(h: Heap, roots: seq<Word>, o: Obj)
    requires Sound(h) && IsRoot(h, roots, o)
    ensures Reached(h, roots, o)
  {
    var path := [o];
    assert Chain(h, roots, path) && path[|path| - 1] == o;
  }

  lemma ReachEdge(h: Heap, roots: seq<Word>, o: Obj, p: Obj)
    requires Sound(h) && Reached(h, roots, o) && Edge(h, o, p)
    ensures Reached(h, roots, p)
  {
    hide Edge, IsRoot, Sound;
    var path :| Chain(h, roots, path) && path[|path| - 1] == o;
    var longer := path + [p];
    forall i | 0 <= i < |longer| - 1
      ensures Edge(h, longer[i], longer[i + 1])
    {
      if i < |path| - 1 {
        assert Edge(h, path[i], path[i + 1]);
      }
    }
    assert Chain(h, roots, longer) && longer[|longer| - 1] == p;
  }

  /** A set that holds the roots' targets and is closed under pointers holds everything reached. */
  lemma ReachedWithin(h: Heap, roots: seq<Word>, s: set<Obj>, o: Obj)
    requires Sound(h) && Reached(h, roots, o)
    requires forall p :: IsRoot(h, roots, p) ==> p in s
    requires forall p, q :: p in s && Edge(h, p, q) ==> q in s
    ensures o in s
  {
    hide Edge, IsRoot, Sound;
    var path :| Chain(h, roots, path) && path[|path| - 1] == o;
    var i := 0;
    while i < |path| - 1
      invariant 0 <= i < |path| && path[i] in s
    {
      assert Edge(h, path[i], path[i + 1]);
      i := i + 1;
    }
  }

  // ---------------------------------------------------------------- objects stay apart

  lemma SlotFits(d: nat, q: nat, k: nat)
    requires k < q && q * (8 * d) <= SPAN_SIZE
    ensures k * d + d <= SPAN_WORDS
  {
    assert k * d + d == (k + 1) * d <= q * d;
    assert q * (8 * d) == 8 * (q * d);
  }

  lemma SlotInSpan(c: nat, i: nat, k: nat)
    requires c < NUM_CLASSES && k < SPAN_SIZE / CLASS_SIZE[c]
    ensures var e := CLASS_SIZE[c];
            SPAN_WORDS * i <= SlotStart(e, i, k) && SlotStart(e, i, k) + e / 8 <= SPAN_WORDS * (i + 1) && e % 8 == 0
  {
    ClassSizes(c);
    hide CLASS_SIZE;
    var e := CLASS_SIZE[c];
    var d, q := e / 8, SPAN_SIZE / e;
    assert e == 8 * d;
    SlotFits(d, q, k);
  }

  /** An allocated object lies inside the used part of the heap. */
  lemma InBounds(h: Heap, o: Obj)
    requires Sound(h) && Allocated(h, o)
    ensures Words(h, o) <= Extent(h, o)
    ensures SPAN_WORDS * o.span <= Start(h, o) && Start(h, o) + Extent(h, o) <= SPAN_WORDS * h.used <= |h.mem|
    ensures h.spans[o.span].state == Small ==> Start(h, o) + Extent(h, o) <= SPAN_WORDS * (o.span + 1)
    ensures Addr(h, o) < ADDRESSES
  {
    var s := h.spans[o.span];
    assert SpanOk(h.spans, o.span, h.used);
    if s.state == Small {
      SlotInSpan(s.cls, o.span, o.slot);
    }
  }

  /** Two allocated objects share no word. */
  lemma Disjoint(h: Heap, o: Obj, p: Obj)
    requires Sound(h) && Allocated(h, o) && Allocated(h, p) && o != p
    ensures Start(h, o) + Extent(h, o) <= Start(h, p) || Start(h, p) + Extent(h, p) <= Start(h, o)
  {
    InBounds(h, o);
    InBounds(h, p);
    if o.span == p.span {
      assert SpanOk(h.spans, o.span, h.used);
      SlotsApart(h.spans[o.span].elem, o.span, o.slot, p.slot);
    } else {
      SpansApart(h, o, p);
      SpansApart(h, p, o);
    }
  }

  /** A continuation span belongs to the run of exactly one large object, the one it names. */
  lemma ContInOneRun(h: Heap, j: nat, i: nat)
    requires Sound(h) && j < h.used && h.spans[j].state == Cont && i < h.used && h.spans[i].state == Large
    ensures i < j < i + h.spans[i].runLen <==> i == h.spans[j].headIdx
  {
    assert SpanOk(h.spans, j, h.used);
    assert SpanOk(h.spans, i, h.used);
  }

  lemma SlotsApart(elem: nat, i: nat, j: nat, k: nat)
    requires j != k
    ensures SlotStart(elem, i, j) + elem / 8 <= SlotStart(elem, i, k) || SlotStart(elem, i, k) + elem / 8 <= SlotStart(elem, i, j)
  {
    if j < k {
      assert (j + 1) * (elem / 8) <= k * (elem / 8);
    } else {
      assert (k + 1) * (elem / 8) <= j * (elem / 8);
    }
  }

  /** The extent of an object ends before the span of an object that begins in a later span. */
  lemma SpansApart(h: Heap, o: Obj, p: Obj)
    requires Sound(h) && Allocated(h, o) && Allocated(h, p)
    ensures o.span < p.span ==> Start(h, o) + Extent(h, o) <= SPAN_WORDS * p.span
  {
    InBounds(h, o);
    if o.span < p.span && h.spans[o.span].state == Large {
      assert SpanOk(h.spans, o.span, h.used);
    }
  }

  // ---------------------------------------------------------------- marks

  ghost predicate MarkedIn(h: Heap, o: Obj) {
    o.span < |h.spans| && TableOk(h.spans[o.span]) && o.slot < SLOTS && Has(h.spans[o.span].mark, o.slot)
  }

  /** The two spans differ in their marks only. */
  predicate SameButMark(a: Span, b: Span) {
    b == a.(mark := b.mark)
  }

  ghost predicate SameButMarks(h: Heap, h': Heap) {
    && h' == h.(spans := h'.spans) && |h'.spans| == |h.spans|
    && forall i :: 0 <= i < |h.spans| ==> TableOk(h'.spans[i]) && SameButMark(h.spans[i], h'.spans[i])
  }

  /** Every object the heap has room for. */
  ghost function Universe(h: Heap): set<Obj> {
    set i: nat, k: nat | i < |h.spans| && k < SLOTS :: Obj(i, k)
  }

  ghost predicate Noscan(h: Heap, o: Obj) {
    o.span < |h.spans| && h.spans[o.span].state == Large && h.spans[o.span].noscan
  }

  /** None of the `n` words from `at` on is a pointer word. */
  ghost predicate NoPointers(bits: seq<bv64>, at: nat, n: nat) {
    forall w: nat :: at <= w < at + n && w < 64 * |bits| ==> !Has(bits, w)
  }

  /** A large object that is not scanned has no pointer words. */
  ghost predicate NoscanClear(h: Heap)
    requires Shape(h)
  {
    forall i: nat :: i < h.used && h.spans[i].state == Large && h.spans[i].noscan ==>
                       NoPointers(h.bits, SPAN_WORDS * i, h.spans[i].objBytes / 8)
  }

  lemma NoscanNoEdge(h: Heap, o: Obj, p: Obj)
    requires Sound(h) && NoscanClear(h) && Noscan(h, o)
    ensures !Edge(h, o, p)
  {
    hide Points;
    if Allocated(h, o) {
      assert NoPointers(h.bits, SPAN_WORDS * o.span, h.spans[o.span].objBytes / 8);
    }
  }

  // ---------------------------------------------------------------- memory that has not been handed out

  ghost predicate ZeroAt(mem: seq<Word>, at: nat, n: nat) {
    forall w: nat :: at <= w < at + n && w < |mem| ==> mem[w] == 0
  }

  /** The free slots of the span are zero. */
  ghost predicate SlotsZero(h: Heap, i: nat)
    requires i < |h.spans|
  {
    var s := h.spans[i];
    TableOk(s) && forall k: nat :: k < s.nelems && k < SLOTS && !Has(s.alloc, k) ==> ZeroAt(h.mem, SlotStart(s.elem, i, k), s.elem / 8)
  }

  /** Heap that was never used is zero, and so are the free slots of spans that need no zeroing. */
  ghost predicate ZeroOk(h: Heap)
    requires Shape(h)
  {
    && ZeroAt(h.mem, SPAN_WORDS * h.used, |h.mem|)
    && forall i: nat :: i < h.used && h.spans[i].state == Small && !h.spans[i].needzero ==> SlotsZero(h, i)
  }
}

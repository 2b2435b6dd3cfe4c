/** Large objects: runs of whole spans. */
module GcLarge {
  import opened Wrappers
  import opened BitWords
  import opened BitTable
  import opened GcHeap
  import opened GcState
  import opened GcSweep
  import opened GcCollect
  import opened GcAlloc
  import opened GcSlots

  // ---------------------------------------------------------------- looking for a run

  /** `n` free spans from `i` on, all of which have been used before. */
  ghost predicate FreeRun(spans: seq<Span>, used: nat, i: nat, n: nat) {
    i + n <= used <= |spans| && forall j: nat :: i <= j < i + n ==> spans[j].state == Free
  }

  lemma {:induction false} Covers(list: seq<nat>, i: nat, n: nat)
    requires forall j: nat :: i <= j < i + n ==> j in list
    ensures n <= |list|
    decreases n
  {
    if n > 0 {
      var x := i + n - 1;
      assert x in list;
      var p :| 0 <= p < |list| && list[p] == x;
      var rest := list[..p] + list[p + 1..];
      forall j: nat | i <= j < i + (n - 1)
        ensures j in rest
      {
        assert j in list;
        var q :| 0 <= q < |list| && list[q] == j;
        assert rest[if q < p then q else q - 1] == j;
      }
      Covers(rest, i, n - 1);
    }
  }

  /** A run of free spans cannot be longer than the free stack. */
  lemma RunInStack(free: seq<nat>, spans: seq<Span>, used: nat, i: nat, n: nat)
    requires FreeCover(free, spans, used) && FreeRun(spans, used, i, n)
    ensures n <= |free|
  {
    Covers(free, i, n);
  }

  /** `find_free_run`: the lowest run of `n` free spans, if there is one. Too short a free stack means there is none. */
  method FindFreeRun(g: Gc, n: nat) returns (r: Option<nat>)
    requires Listed(g) && n > 0
    ensures r.Some? ==> FreeRun(g.spans[..], g.used, r.value, n) && forall i: nat :: i < r.value ==> !FreeRun(g.spans[..], g.used, i, n)
    ensures r.None? ==> forall i: nat :: !FreeRun(g.spans[..], g.used, i, n)
  {
    hide CurOk, PartialsOk, NonFree;
    if |g.freeSpans| < n {
      forall i: nat
        ensures !FreeRun(g.spans[..], g.used, i, n)
      {
        if FreeRun(g.spans[..], g.used, i, n) {
          RunInStack(g.freeSpans, g.spans[..], g.used, i, n);
        }
      }
      return None;
    }
    hide FreeCover;
    var run: nat := 0;
    for i := 0 to g.used
      invariant run <= i && run < n
      invariant forall j: nat :: i - run <= j < i ==> g.spans[j].state == Free
      invariant run < i ==> g.spans[i - run - 1].state != Free
      invariant forall k: nat :: k + n <= i ==> !FreeRun(g.spans[..], g.used, k, n)
    {
      if g.spans[i].state == Free {
        run := run + 1;
        if run == n {
          assert FreeRun(g.spans[..], g.used, i + 1 - n, n);
          return Some(i + 1 - n);
        }
      } else {
        run := 0;
      }
      if n <= i + 1 {
        NoRunOver(g.spans[..], g.used, i + 1 - n, n, i - run);
      }
    }
    r := None;
  }

  lemma NoRunOver(spans: seq<Span>, used: nat, i: nat, n: nat, j: nat)
    requires i <= j < i + n && j < |spans| && spans[j].state != Free
    ensures !FreeRun(spans, used, i, n)
  {
  }

  // ---------------------------------------------------------------- taking a run

  /** What becomes of span `j` when the `n` spans from `i` on are taken for an object of `size` bytes. */
  function RunSpan(s: Span, i: nat, n: nat, j: nat, size: nat, noscan: bool): Span {
    if j == i then
      s.(state := Large, noscan := noscan, needzero := false, runLen := n, objBytes := size, mark := if |s.mark| > 0 then s.mark[0 := 0] else s.mark)
    else if i < j < i + n then s.(state := Cont, headIdx := i)
    else s
  }

  /** `spans'` is `spans` after a free run was taken. */
  ghost predicate RunTaken(spans: seq<Span>, spans': seq<Span>, i: nat, n: nat, size: nat, noscan: bool) {
    && n >= 2 && SPAN_SIZE * (n - 1) < size <= SPAN_SIZE * n
    && |spans'| == |spans| && i + n <= |spans| && (forall j: nat :: i <= j < i + n ==> spans[j].state == Free)
    && forall j: nat :: j < |spans| ==> spans'[j] == RunSpan(spans[j], i, n, j, size, noscan)
  }

  /** The run was free, or the first heap that was never used; the object in it is zero, and nothing else has changed. */
  ghost predicate Ran(h: Heap, h': Heap, i: nat, n: nat, size: nat, noscan: bool) {
    && RunTaken(h.spans, h'.spans, i, n, size, noscan) && h.used <= |h.spans| && (i + n <= h.used || i == h.used)
    && h' == h.(spans := h'.spans, used := if i == h.used then h.used + n else h.used, mem := h'.mem)
    && OnlyZeroed(h.mem, h'.mem, SPAN_WORDS * i, SPAN_WORDS * n) && Zeroed(h'.mem, SPAN_WORDS * i, size)
  }

  /** Outside the range nothing has changed, and what was zero still is. */
  ghost predicate OnlyZeroed(mem: seq<Word>, mem': seq<Word>, at: nat, n: nat) {
    SameOutside(mem, mem', at, n) && forall w: nat :: w < |mem| && mem[w] == 0 ==> mem'[w] == 0
  }

  /** The low `k` bytes of a word are zero. */
  predicate LowZero(w: Word, k: nat)
    decreases k
  {
    k == 0 || (w % 256 == 0 && LowZero(w / 256, k - 1))
  }

  /** A word with its low `k` bytes set to zero. */
  function DropLow(w: Word, k: nat): (r: Word)
    ensures r <= w && LowZero(r, k)
    decreases k
  {
    if k == 0 then w else 256 * DropLow(w / 256, k - 1)
  }

  /** The `size` bytes from word `at` on are zero; a last part of a word is its low bytes. */
  ghost predicate Zeroed(mem: seq<Word>, at: nat, size: nat) {
    && ZeroAt(mem, at, size / 8)
    && (size % 8 > 0 && at + size / 8 < |mem| ==> LowZero(mem[at + size / 8], size % 8))
  }

  /** `memset` of `size` bytes to zero. */
  method ZeroBytes(a: array<Word>, at: nat, size: nat)
    requires at + (size + 7) / 8 <= a.Length
    modifies a
    ensures OnlyZeroed(old(a[..]), a[..], at, (size + 7) / 8) && Zeroed(a[..], at, size)
  {
    ZeroWords(a, at, size / 8);
    if size % 8 > 0 {
      hide LowZero, DropLow;
      var w := at + size / 8;
      a[w] := DropLow(a[w], size % 8);
    }
  }

  lemma RunMarks(s: Span, i: nat, n: nat, j: nat, size: nat, noscan: bool)
    requires NoMarks(s)
    ensures NoMarks(RunSpan(s, i, n, j, size, noscan)) && TableOk(RunSpan(s, i, n, j, size, noscan))
  {
    var t := RunSpan(s, i, n, j, size, noscan);
    forall k: nat | k < SLOTS
      ensures !Has(t.mark, k)
    {
      assert !Has(s.mark, k);
      ZeroBit(k % 64);
      hide Bit;
    }
  }

  /** Taking free spans breaks no other run. */
  lemma RanSpans(spans: seq<Span>, spans': seq<Span>, used: nat, used': nat, i: nat, n: nat, size: nat, noscan: bool)
    requires SpansOk(spans, used) && RunTaken(spans, spans', i, n, size, noscan) && used <= used' <= |spans| && i + n <= used'
    requires used' == used || (used == i && used' == i + n)
    ensures SpansOk(spans', used')
  {
    hide Has, SmallOk;
    forall j: nat | j < used'
      ensures SpanOk(spans', j, used')
    {
      if j == i {
        assert RunOk(spans', i, n);
      } else if i < j < i + n {
        assert ContOk(spans', j);
      } else {
        assert SpanOk(spans, j, used);
        RanSpan(spans, spans', used, used', i, n, size, noscan, j);
      }
    }
  }

  lemma RanSpan(spans: seq<Span>, spans': seq<Span>, used: nat, used': nat, i: nat, n: nat, size: nat, noscan: bool, j: nat)
    requires RunTaken(spans, spans', i, n, size, noscan) && used <= used' <= |spans| && j < used && SpanOk(spans, j, used)
    requires !(i <= j < i + n)
    ensures SpanOk(spans', j, used')
  {
    hide Has, SmallOk;
    match spans[j].state {
      case Large =>
        assert RunOk(spans, j, spans[j].runLen);
        forall k: nat | j < k < j + spans'[j].runLen
          ensures spans'[k].state == Cont && spans'[k].headIdx == j
        {
          assert spans[k].state == Cont;
        }
      case Cont =>
        var hi := spans[j].headIdx;
        assert spans'[hi] == spans[hi];
      case _ =>
    }
  }

  lemma RanSound(h: Heap, h': Heap, i: nat, n: nat, size: nat, noscan: bool)
    requires Sound(h) && MarksClear(h.spans) && Ran(h, h', i, n, size, noscan)
    ensures Sound(h') && Shape(h') && MarksClear(h'.spans)
  {
    RanSpans(h.spans, h'.spans, h.used, h'.used, i, n, size, noscan);
    forall j | 0 <= j < |h'.spans|
      ensures NoMarks(h'.spans[j]) && TableOk(h'.spans[j])
    {
      assert NoMarks(h.spans[j]);
      RunMarks(h.spans[j], i, n, j, size, noscan);
      hide RunSpan, SpansOk, NoMarks;
    }
    hide RunSpan, SpansOk, NoMarks, OnlyZeroed, Zeroed, RunTaken;
  }

  /** Large objects that are not scanned, but for the one in span `i`, have no pointer words. */
  ghost predicate NoscanBut(h: Heap, i: nat)
    requires Shape(h)
  {
    forall j: nat :: j < h.used && j != i && h.spans[j].state == Large && h.spans[j].noscan ==>
                       NoPointers(h.bits, SPAN_WORDS * j, h.spans[j].objBytes / 8)
  }

  /** What holds of the heap while the pointer bits of the object in span `i` are not written yet. */
  ghost predicate HeapBut(h: Heap, i: nat) {
    Sound(h) && MarksClear(h.spans) && ZeroOk(h) && NoscanBut(h, i)
  }

  lemma RanNoscan(h: Heap, h': Heap, i: nat, n: nat, size: nat, noscan: bool)
    requires Shape(h) && Shape(h') && NoscanClear(h) && Ran(h, h', i, n, size, noscan)
    ensures NoscanBut(h', i)
  {
    hide NoPointers, OnlyZeroed, Zeroed, TableOk;
    forall j: nat | j < h'.used && j != i && h'.spans[j].state == Large && h'.spans[j].noscan
      ensures NoPointers(h'.bits, SPAN_WORDS * j, h'.spans[j].objBytes / 8)
    {
      assert h'.spans[j] == RunSpan(h.spans[j], i, n, j, size, noscan);
      assert NoPointers(h.bits, SPAN_WORDS * j, h.spans[j].objBytes / 8);
    }
  }

  lemma ZeroStays(mem: seq<Word>, mem': seq<Word>, at: nat, n: nat, a: nat, m: nat)
    requires OnlyZeroed(mem, mem', at, n) && ZeroAt(mem, a, m)
    ensures ZeroAt(mem', a, m)
  {
  }

  lemma RanZero(h: Heap, h': Heap, i: nat, n: nat, size: nat, noscan: bool)
    requires Shape(h) && Shape(h') && ZeroOk(h) && Ran(h, h', i, n, size, noscan)
    ensures ZeroOk(h')
  {
    hide OnlyZeroed, Zeroed, ZeroAt, Has, SlotStart;
    ZeroStays(h.mem, h'.mem, SPAN_WORDS * i, SPAN_WORDS * n, SPAN_WORDS * h.used, |h.mem|);
    ZeroPart(h'.mem, SPAN_WORDS * h.used, SPAN_WORDS * n + |h.mem|, SPAN_WORDS * h'.used, |h.mem|) by {
      ZeroBeyond(h'.mem, SPAN_WORDS * h.used, |h.mem|, SPAN_WORDS * n + |h.mem|);
    }
    forall j: nat | j < h'.used && h'.spans[j].state == Small && !h'.spans[j].needzero
      ensures SlotsZero(h', j)
    {
      var s := h.spans[j];
      assert h'.spans[j] == RunSpan(s, i, n, j, size, noscan);
      assert SlotsZero(h, j);
      forall k: nat | k < s.nelems && k < SLOTS && !Has(s.alloc, k)
        ensures ZeroAt(h'.mem, SlotStart(s.elem, j, k), s.elem / 8)
      {
        ZeroStays(h.mem, h'.mem, SPAN_WORDS * i, SPAN_WORDS * n, SlotStart(s.elem, j, k), s.elem / 8);
      }
    }
  }

  lemma ZeroBeyond(mem: seq<Word>, a: nat, n: nat, m: nat)
    requires ZeroAt(mem, a, n) && a + n >= |mem|
    ensures ZeroAt(mem, a, m)
  {
  }

  lemma RanHeap(h: Heap, h': Heap, i: nat, n: nat, size: nat, noscan: bool)
    requires HeapOk(h) && Ran(h, h', i, n, size, noscan)
    ensures HeapBut(h', i) && Sound(h')
  {
    HeapParts(h);
    RanSound(h, h', i, n, size, noscan);
    RanNoscan(h, h', i, n, size, noscan);
    RanZero(h, h', i, n, size, noscan);
    hide *;
    assert HeapBut(h', i) by {
      HeapButParts(h', i);
    }
  }

  lemma HeapButParts(h: Heap, i: nat)
    ensures Sound(h) ==> Shape(h)
    ensures Sound(h) && MarksClear(h.spans) && ZeroOk(h) && NoscanBut(h, i) ==> HeapBut(h, i)
  {
    hide Shape, SpansOk, MarksClear, ZeroOk, NoscanBut;
  }

  /** The new object is the only one that was not there, and no other object has changed. */
  lemma RanGrew(h: Heap, h': Heap, i: nat, n: nat, size: nat, noscan: bool)
    requires Sound(h) && Sound(h') && Ran(h, h', i, n, size, noscan)
    ensures Grew(h, h', Obj(i, 0)) && Start(h', Obj(i, 0)) == SPAN_WORDS * i
    ensures Extent(h', Obj(i, 0)) == SPAN_WORDS * n && Words(h', Obj(i, 0)) == size / 8
  {
    forall p
      ensures p != Obj(i, 0) ==> (Allocated(h', p) <==> Allocated(h, p))
      ensures Allocated(h, p) ==> p != Obj(i, 0) && SameObject(h, h', p)
      ensures Allocated(h', Obj(i, 0))
    {
      RanAllocated(h, h', i, n, size, noscan, p);
      RanAllocated(h, h', i, n, size, noscan, Obj(i, 0));
      if Allocated(h, p) {
        RanOther(h, h', i, n, size, noscan, p);
      }
      hide *;
    }
    assert h'.spans[i] == RunSpan(h.spans[i], i, n, i, size, noscan);
    hide Sound, Zeroed, OnlyZeroed, Allocated, SameObject;
  }

  lemma RanAllocated(h: Heap, h': Heap, i: nat, n: nat, size: nat, noscan: bool, p: Obj)
    requires Sound(h) && Sound(h') && Ran(h, h', i, n, size, noscan)
    ensures Allocated(h', p) == (p == Obj(i, 0) || Allocated(h, p)) && !Allocated(h, Obj(i, 0))
    ensures Allocated(h, p) ==> p.span < |h.spans| && h'.spans[p.span] == h.spans[p.span]
  {
    hide SpansOk, Has, Zeroed, OnlyZeroed;
    if p.span < |h.spans| {
      assert h'.spans[p.span] == RunSpan(h.spans[p.span], i, n, p.span, size, noscan);
    }
  }

  lemma RanOther(h: Heap, h': Heap, i: nat, n: nat, size: nat, noscan: bool, p: Obj)
    requires Sound(h) && Sound(h') && Ran(h, h', i, n, size, noscan) && Allocated(h, p) && p != Obj(i, 0)
    ensures SameObject(h, h', p)
  {
    var o := Obj(i, 0);
    RanAllocated(h, h', i, n, size, noscan, p);
    RanAllocated(h, h', i, n, size, noscan, o);
    assert h'.spans[i] == RunSpan(h.spans[i], i, n, i, size, noscan);
    Disjoint(h', p, o);
    InBounds(h', p);
    hide Sound, Allocated, Zeroed, RunTaken;
  }

  // ---------------------------------------------------------------- the lists and the counts

  /** How many of the spans below `m` lie in the run. */
  function Below(i: nat, n: nat, m: nat): nat {
    if m <= i then 0 else if m < i + n then m - i else n
  }

  lemma {:induction false} RunCount(spans: seq<Span>, spans': seq<Span>, i: nat, n: nat, size: nat, noscan: bool, m: nat)
    requires RunTaken(spans, spans', i, n, size, noscan) && m <= |spans|
    ensures NonFree(spans', m) == NonFree(spans, m) + Below(i, n, m)
    ensures AllocBytes(spans', m) == AllocBytes(spans, m) + if i < m then SPAN_SIZE * n else 0
    decreases m
  {
    if m > 0 {
      RunCount(spans, spans', i, n, size, noscan, m - 1);
      RunBytes(spans[m - 1], i, n, m - 1, size, noscan);
      hide SpanBytes, RunSpan;
      assert spans'[m - 1] == RunSpan(spans[m - 1], i, n, m - 1, size, noscan);
      RunState(spans[m - 1], i, n, m - 1, size, noscan);
    }
  }

  lemma RunState(s: Span, i: nat, n: nat, j: nat, size: nat, noscan: bool)
    ensures RunSpan(s, i, n, j, size, noscan).state == if j == i then Large else if i < j < i + n then Cont else s.state
  {
  }

  lemma RunBytes(s: Span, i: nat, n: nat, j: nat, size: nat, noscan: bool)
    requires n > 0 && (i <= j < i + n ==> s.state == Free)
    ensures SpanBytes(RunSpan(s, i, n, j, size, noscan)) == SpanBytes(s) + if j == i then SPAN_SIZE * n else 0
  {
    hide Count, SlotBytes;
  }

  lemma {:induction false} FreeTail(spans: seq<Span>, a: nat, b: nat)
    requires a <= b <= |spans| && forall j: nat :: a <= j < b ==> spans[j].state == Free
    ensures NonFree(spans, b) == NonFree(spans, a) && AllocBytes(spans, b) == AllocBytes(spans, a)
    decreases b
  {
    if a < b {
      FreeTail(spans, a, b - 1);
      FreeBytes(spans[b - 1]);
      hide SpanBytes;
    }
  }

  lemma RanCounts(h: Heap, h': Heap, i: nat, n: nat, size: nat, noscan: bool)
    requires Ran(h, h', i, n, size, noscan)
    ensures NonFree(h'.spans, h'.used) == NonFree(h.spans, h.used) + n
    ensures AllocBytes(h'.spans, h'.used) == AllocBytes(h.spans, h.used) + SPAN_SIZE * n
  {
    hide NonFree, AllocBytes, RunSpan, OnlyZeroed, Zeroed;
    RunCount(h.spans, h'.spans, i, n, size, noscan, h'.used);
    if i == h.used {
      FreeTail(h.spans, h.used, h'.used);
    }
  }

  /** Taking a run leaves the lists valid: its spans may stay on the free stack, where they are skipped. */
  lemma RanLists(h: Heap, h': Heap, i: nat, n: nat, size: nat, noscan: bool, inUse: nat, free: seq<nat>, cur: seq<Option<nat>>, partial: seq<seq<nat>>)
    requires Ran(h, h', i, n, size, noscan) && ListsOk(h.spans, h.used, inUse, free, cur, partial)
    ensures ListsOk(h'.spans, h'.used, inUse + n, free, cur, partial)
  {
    RanCounts(h, h', i, n, size, noscan);
    hide HasRoom, NonFree, AllocBytes, OnlyZeroed, Zeroed, RunSpan;
    RanStates(h, h', i, n, size, noscan);
    forall c: nat | c < NUM_CLASSES
      ensures PartialOk(partial[c], c, cur[c], h'.spans, h'.used)
    {
      assert PartialOk(partial[c], c, cur[c], h.spans, h.used);
    }
  }

  lemma RanRoom(h: Heap, h': Heap, i: nat, n: nat, size: nat, noscan: bool, cur: seq<Option<nat>>, partial: seq<seq<nat>>)
    requires Ran(h, h', i, n, size, noscan) && RoomListed(h.spans, h.used, cur, partial)
    ensures RoomListed(h'.spans, h'.used, cur, partial)
  {
    hide HasRoom, OnlyZeroed, Zeroed;
    forall j: nat | j < h'.used && h'.spans[j].state == Small
      ensures j < h.used && h'.spans[j] == h.spans[j]
    {
      assert h'.spans[j] == RunSpan(h.spans[j], i, n, j, size, noscan);
    }
    hide RunSpan;
  }

  lemma RanStates(h: Heap, h': Heap, i: nat, n: nat, size: nat, noscan: bool)
    requires Ran(h, h', i, n, size, noscan)
    ensures h.used <= h'.used <= |h'.spans| == |h.spans|
    ensures forall j: nat :: j < |h.spans| && h.spans[j].state != Free ==> h'.spans[j] == h.spans[j]
    ensures forall j: nat :: j < h'.used && h'.spans[j].state == Free ==> j < h.used && h.spans[j].state == Free
  {
    hide OnlyZeroed, Zeroed;
    forall j: nat | j < |h.spans|
      ensures h.spans[j].state != Free ==> h'.spans[j] == h.spans[j]
      ensures j < h'.used && h'.spans[j].state == Free ==> j < h.used && h.spans[j].state == Free
    {
      assert h'.spans[j] == RunSpan(h.spans[j], i, n, j, size, noscan);
    }
  }

  // ---------------------------------------------------------------- allocating

  /** Marks the first span of a free run as the head of a large object, and the others as its continuation. */
  method TakeRun(a: array<Span>, i: nat, n: nat, size: nat, noscan: bool)
    requires n >= 2 && i + n <= a.Length && SPAN_SIZE * (n - 1) < size <= SPAN_SIZE * n
    requires forall j: nat :: i <= j < i + n ==> a[j].state == Free
    modifies a
    ensures RunTaken(old(a[..]), a[..], i, n, size, noscan)
  {
    ghost var s := a[..];
    a[i] := a[i].(state := Large, noscan := noscan, needzero := false, runLen := n, objBytes := size,
                  mark := if |a[i].mark| > 0 then a[i].mark[0 := 0] else a[i].mark);
    for k := 1 to n
      invariant forall j: nat :: j < a.Length ==> a[j] == if j < i + k then RunSpan(s[j], i, n, j, size, noscan) else s[j]
    {
      a[i + k] := a[i + k].(state := Cont, headIdx := i);
    }
  }

  /** What holds while the pointer bits of the new object `o` are not written yet. */
  ghost predicate Pending(g: Gc, o: Obj)
    reads g, g.spans, g.mem, g.bits
  {
    && Apart(g) && HeapBut(g.H(), o.span) && Listed(g) && Quiet(g) && g.lastLive + g.sinceGc == AllocBytes(g.spans[..], g.used)
    && g.trigger == Pace(g.lastLive, g.minTrigger, g.stressEvery) && RoomListed(g.spans[..], g.used, g.cur, g.partial)
  }

  /** The number of spans for `size` bytes. */
  function SpansFor(size: nat): (n: nat)
    ensures size <= SPAN_SIZE * n && (size > 0 ==> SPAN_SIZE * (n - 1) < size)
  {
    (size + (SPAN_SIZE - 1)) / SPAN_SIZE
  }

  /** Where a run of `n` spans comes from: the lowest free one, and fresh heap only when no run is free. */
  ghost predicate FirstFit(h: Heap, n: nat, i: nat) {
    if FreeRun(h.spans, h.used, i, n) then forall k: nat :: k < i ==> !FreeRun(h.spans, h.used, k, n)
    else i == h.used && i + n <= |h.spans| && forall k: nat :: !FreeRun(h.spans, h.used, k, n)
  }

  /** No run of `n` spans is free, and not enough of the heap was never used. */
  ghost predicate NoRoom(h: Heap, n: nat) {
    h.used + n > |h.spans| && forall k: nat :: !FreeRun(h.spans, h.used, k, n)
  }

  /** Takes a run for an object, and zeroes the object unless the heap was never used. */
  method PlaceRun(g: Gc, i: nat, n: nat, untouched: bool, size: nat, noscan: bool)
    requires Owing(g, SPAN_SIZE * n) && g.used <= g.spans.Length && n >= 2 && SPAN_SIZE * (n - 1) < size <= SPAN_SIZE * n
    requires if untouched then i == g.used && i + n <= g.spans.Length else FreeRun(g.spans[..], g.used, i, n)
    modifies g`used, g`inUse, g.spans, g.mem
    ensures Ran(old(g.H()), g.H(), i, n, size, noscan) && Pending(g, Obj(i, 0))
  {
    hide HeapOk, ListsOk, RoomListed, AllocBytes, RunSpan, SpansOk, HeapBut, RunTaken;
    ghost var h := g.H();
    HeapParts(h);
    RunFree(h, i, n);
    TakeRun(g.spans, i, n, size, noscan);
    g.inUse := g.inUse + n;
    if untouched {
      g.used := g.used + n;
      HeapFresh(h);
      ghost var mem := g.mem[..];
      ZeroPart(h.mem, SPAN_WORDS * h.used, |h.mem|, SPAN_WORDS * i, SPAN_WORDS * n);
      ZeroWhole(h.mem, SPAN_WORDS * i, size);
      Unzeroed(h.mem, SPAN_WORDS * i, SPAN_WORDS * n);
    } else {
      ZeroBytes(g.mem, SPAN_WORDS * i, size);
      WiderZero(h.mem, g.mem[..], SPAN_WORDS * i, (size + 7) / 8, SPAN_WORDS * n);
    }
    assert Ran(h, g.H(), i, n, size, noscan);
    RanHeap(h, g.H(), i, n, size, noscan);
    RanLists(h, g.H(), i, n, size, noscan, old(g.inUse), g.freeSpans, g.cur, g.partial);
    RanRoom(h, g.H(), i, n, size, noscan, g.cur, g.partial);
    RanCounts(h, g.H(), i, n, size, noscan);
  }

  lemma RunFree(h: Heap, i: nat, n: nat)
    requires HeapOk(h) && (FreeRun(h.spans, h.used, i, n) || (i == h.used && i + n <= |h.spans|))
    ensures i + n <= |h.spans| && (forall j: nat :: i <= j < i + n ==> h.spans[j].state == Free)
    ensures |h.mem| == SPAN_WORDS * |h.spans|
  {
    SpansFree(h);
    HeapParts(h);
    hide SpansOk, HeapOk;
  }

  lemma HeapFresh(h: Heap)
    requires HeapOk(h)
    ensures ZeroAt(h.mem, SPAN_WORDS * h.used, |h.mem|)
  {
    hide ZeroAt, Sound;
  }

  lemma ZeroWhole(mem: seq<Word>, at: nat, size: nat)
    requires ZeroAt(mem, at, (size + 7) / 8)
    ensures Zeroed(mem, at, size)
  {
    ZeroLow(size % 8);
  }

  lemma {:induction false} ZeroLow(k: nat)
    ensures LowZero(0, k)
    decreases k
  {
    if k > 0 {
      ZeroLow(k - 1);
    }
  }

  lemma Unzeroed(mem: seq<Word>, at: nat, n: nat)
    ensures OnlyZeroed(mem, mem, at, n)
  {
  }

  lemma WiderZero(mem: seq<Word>, mem': seq<Word>, at: nat, m: nat, n: nat)
    requires OnlyZeroed(mem, mem', at, m) && m <= n
    ensures OnlyZeroed(mem, mem', at, n)
  {
  }

  lemma NoneFits(g: Gc, h: Heap, n: nat)
    requires h == g.H() && g.used + n > g.spans.Length && forall k: nat :: !FreeRun(g.spans[..], g.used, k, n)
    ensures NoRoom(h, n)
  {
    hide FreeRun;
    forall k: nat
      ensures !FreeRun(h.spans, h.used, k, n)
    {
      assert !FreeRun(g.spans[..], g.used, k, n);
    }
  }

  lemma SomeFits(g: Gc, h: Heap, n: nat, i: nat)
    requires h == g.H()
    requires (FreeRun(g.spans[..], g.used, i, n) && forall k: nat :: k < i ==> !FreeRun(g.spans[..], g.used, k, n))
             || (i == g.used && i + n <= g.spans.Length && forall k: nat :: !FreeRun(g.spans[..], g.used, k, n))
    ensures !NoRoom(h, n) && FirstFit(h, n, i)
  {
    hide FreeRun;
    assert h.spans == g.spans[..] && h.used == g.used;
  }

  /** `gc_alloc_large`: a run of whole spans for an object above the largest class. */
  method AllocLarge(g: Gc, size: nat, noscan: bool, roots: seq<Word>) returns (r: Option<Obj>, ghost mid: Heap)
    requires Valid(g) && size > MAX_CLASS
    modifies g, g.spans, g.mem
    ensures Began(old(g.H()), roots, mid)
    ensures r.Some? ==> Ran(mid, g.H(), r.value.span, SpansFor(size), size, noscan) && Pending(g, r.value) && r.value.slot == 0
    ensures r.Some? ==> Paced(g, SPAN_SIZE * SpansFor(size)) && FirstFit(mid, SpansFor(size), r.value.span)
    ensures r.None? <==> size > SPAN_SIZE * |mid.spans| || NoRoom(mid, SpansFor(size))
  {
    hide HeapOk, ListsOk, RoomListed, Quiet, AllocBytes, Collected, HeapBut, Ran;
    if size > SPAN_SIZE * g.spans.Length {
      return None, g.H();
    }
    var n := SpansFor(size);
    hide SpansFor;
    mid := Charge(g, SPAN_SIZE * n, roots);
    ListSizes(g);
    var found := FindFreeRun(g, n);
    hide FreeRun;
    if found.None? && g.used + n > g.spans.Length {
      NoneFits(g, mid, n);
      return None, mid;
    }
    var i := if found.Some? then found.value else g.used;
    SomeFits(g, mid, n, i);
    hide NoRoom, FirstFit;
    PlaceRun(g, i, n, found.None?, size, noscan);
    RanUsed(mid, g.H(), i, n, size, noscan);
    r := Some(Obj(i, 0));
  }

  lemma RanUsed(h: Heap, h': Heap, i: nat, n: nat, size: nat, noscan: bool)
    requires Ran(h, h', i, n, size, noscan)
    ensures i + n <= |h.spans|
  {
  }
}

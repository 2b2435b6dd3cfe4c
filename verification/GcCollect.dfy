/** The collector, and what holds of the heap between calls. */
module GcCollect {
  import opened Wrappers
  import opened BitWords
  import opened BitTable
  import opened GcHeap
  import opened GcState
  import opened GcMark
  import opened GcSweep

  // ---------------------------------------------------------------- between calls

  ghost predicate HeapOk(h: Heap) {
    Sound(h) && MarksClear(h.spans) && ZeroOk(h) && NoscanClear(h)
  }

  /** The free stack holds every free span; entries may be stale. */
  ghost predicate FreeCover(free: seq<nat>, spans: seq<Span>, used: nat) {
    && used <= |spans|
    && (forall x :: x in free ==> x < used)
    && (forall j: nat :: j < used && spans[j].state == Free ==> j in free)
    && (forall a, b :: 0 <= a < b < |free| ==> free[a] != free[b])
  }

  /** The span a class allocates from. */
  ghost predicate CurOk(cur: seq<Option<nat>>, spans: seq<Span>, used: nat) {
    && |cur| == NUM_CLASSES && used <= |spans|
    && forall c: nat :: c < NUM_CLASSES && cur[c].Some? ==>
                          cur[c].value < used && spans[cur[c].value].state == Small && spans[cur[c].value].cls == c
  }

  /** The spans of class `c` that wait to be allocated from: each has room, and is not the current one. */
  ghost predicate PartialOk(list: seq<nat>, c: nat, cur: Option<nat>, spans: seq<Span>, used: nat) {
    && used <= |spans|
    && (forall x :: x in list ==> x < used && spans[x].state == Small && spans[x].cls == c && HasRoom(spans[x]) && cur != Some(x))
    && (forall a, b :: 0 <= a < b < |list| ==> list[a] != list[b])
  }

  ghost predicate PartialsOk(partial: seq<seq<nat>>, cur: seq<Option<nat>>, spans: seq<Span>, used: nat) {
    |partial| == |cur| == NUM_CLASSES && forall c: nat :: c < NUM_CLASSES ==> PartialOk(partial[c], c, cur[c], spans, used)
  }

  ghost predicate ListsOk(spans: seq<Span>, used: nat, inUse: nat, free: seq<nat>, cur: seq<Option<nat>>, partial: seq<seq<nat>>) {
    && used <= |spans| && inUse == NonFree(spans, used)
    && FreeCover(free, spans, used) && CurOk(cur, spans, used) && PartialsOk(partial, cur, spans, used)
  }

  /** No free slot is forgotten: a span that has one is the current one of its class, or waits in its list. */
  ghost predicate RoomListed(spans: seq<Span>, used: nat, cur: seq<Option<nat>>, partial: seq<seq<nat>>) {
    && used <= |spans| && |cur| == |partial| == NUM_CLASSES
    && forall j: nat, c: nat :: j < used && c < NUM_CLASSES && spans[j].state == Small && spans[j].cls == c && HasRoom(spans[j]) ==>
         cur[c] == Some(j) || j in partial[c]
  }

  ghost predicate Listed(g: Gc)
    reads g, g.spans
  {
    ListsOk(g.spans[..], g.used, g.inUse, g.freeSpans, g.cur, g.partial)
  }

  /** Nothing is being marked. */
  ghost predicate Quiet(g: Gc)
    reads g
  {
    g.mstack == [] && g.gray == [] && g.marked == {}
  }

  /** How many bytes may be allocated before the next collection. */
  function Pace(lastLive: nat, minTrigger: nat, stressEvery: nat): nat {
    if stressEvery > 0 then 0 else if lastLive > minTrigger then lastLive else minTrigger
  }

  /** In stress mode every allocation is due a collection; otherwise as many bytes may be allocated as survived the last
      one, and never fewer than the minimum. */
  ghost predicate Triggered(g: Gc)
    reads g
  {
    && (g.stressEvery > 0 ==> g.trigger == 0)
    && (g.stressEvery == 0 ==> g.trigger >= g.lastLive && g.trigger >= g.minTrigger && g.trigger in {g.lastLive, g.minTrigger})
  }

  /** The three tables are different arrays. */
  ghost predicate Apart(g: Gc) {
    (g.bits as object) != (g.spans as object) && (g.mem as object) != (g.spans as object) && (g.mem as object) != (g.bits as object)
  }

  /** What holds while `n` bytes have been counted that are not handed out yet. The allocated bytes are those that
      survived the last collection and those allocated since. */
  ghost predicate Owing(g: Gc, n: nat)
    reads g, g.spans, g.mem, g.bits
  {
    && Apart(g) && HeapOk(g.H()) && Listed(g) && Quiet(g) && g.lastLive + g.sinceGc == AllocBytes(g.spans[..], g.used) + n
    && g.trigger == Pace(g.lastLive, g.minTrigger, g.stressEvery) && RoomListed(g.spans[..], g.used, g.cur, g.partial)
  }

  /** The invariant at every boundary of the interface. */
  ghost predicate Valid(g: Gc)
    reads g, g.spans, g.mem, g.bits
  {
    Owing(g, 0)
  }

  // ---------------------------------------------------------------- collecting

  /** Exactly the objects that the roots reach are left, where they were, and no word of the heap has changed. */
  ghost predicate Collected(h: Heap, roots: seq<Word>, h': Heap) {
    && Sound(h) && Sound(h') && h'.base == h.base && h'.used == h.used && h'.mem == h.mem && h'.bits == h.bits
    && (forall o :: Allocated(h', o) <==> Reached(h, roots, o))
    && (forall o :: Allocated(h', o) ==> Allocated(h, o) && SamePlace(h, h', o))
  }

  lemma MarkingStarts(h: Heap)
    requires HeapOk(h)
    ensures Marking(h, h, {}, [], [])
  {
    hide Sound, ZeroOk, NoscanClear, Has;
    assert forall i :: 0 <= i < |h.spans| ==> NoMarks(h.spans[i]);
  }

  lemma SameSpansOk(a: seq<Span>, b: seq<Span>, used: nat)
    requires SpansOk(a, used) && |a| == |b| && forall i :: 0 <= i < |a| ==> TableOk(b[i]) && SameButMark(a[i], b[i])
    ensures SpansOk(b, used) && NonFree(a, used) == NonFree(b, used)
  {
    forall i: nat | i < used
      ensures SpanOk(b, i, used)
    {
      assert SpanOk(a, i, used);
      SameSpanOk(a, b, i, used);
    }
    hide Has, SpanOk, NonFree;
    NonFreeSame(a, b, used);
  }

  lemma SameSpanOk(a: seq<Span>, b: seq<Span>, i: nat, used: nat)
    requires |a| == |b| && i < |a| && SpanOk(a, i, used)
    requires forall j :: 0 <= j < |a| ==> TableOk(b[j]) && SameButMark(a[j], b[j])
    ensures SpanOk(b, i, used)
  {
    hide Has;
    match a[i].state {
      case Small => hide LargeOk, ContOk;
      case Large =>
        hide SmallOk, ContOk;
        assert RunOk(a, i, a[i].runLen);
        forall j: nat | i < j < i + b[i].runLen
          ensures b[j].state == Cont && b[j].headIdx == i
        {
          assert a[j].state == Cont && a[j].headIdx == i;
        }
      case Cont => hide SmallOk, LargeOk;
      case Free =>
    }
  }

  /** A marked heap can be swept. */
  lemma MarkedSweepable(h0: Heap, h: Heap, marked: set<Obj>, gray: seq<Obj>, mstack: seq<Word>)
    requires Marking(h0, h, marked, gray, mstack)
    ensures Sweepable(h.spans, h.used) && NonFree(h0.spans, h0.used) == NonFree(h.spans, h.used) && Shape(h)
    ensures forall o :: o in marked ==> Allocated(h, o)
  {
    SameSpansOk(h0.spans, h.spans, h.used);
    hide Has, SpanOk;
    forall i | 0 <= i < |h.spans|
      ensures MarksIn(h.spans[i])
    {
      forall k: nat | k < SLOTS && Has(h.spans[i].mark, k)
        ensures (h.spans[i].state == Small && k < h.spans[i].nelems && Has(h.spans[i].alloc, k)) || (h.spans[i].state == Large && k == 0)
      {
        assert MarkedIn(h, Obj(i, k));
        assert Allocated(h0, Obj(i, k));
      }
    }
    forall o | o in marked
      ensures Allocated(h, o)
    {
      assert Allocated(h0, o);
    }
  }

  lemma SweptZero(h: Heap, h': Heap)
    requires Shape(h) && Shape(h') && h' == h.(spans := h'.spans) && ZeroOk(h) && NoscanClear(h)
    requires Sweepable(h.spans, h.used) && Sweeping(h.spans, h'.spans, h.used)
    ensures ZeroOk(h') && NoscanClear(h')
  {
    forall i: nat | i < h.used
      ensures h'.spans[i].state == Small ==> h'.spans[i].needzero
      ensures h'.spans[i].state == Large ==> h.spans[i].state == Large && h'.spans[i] == h.spans[i].(mark := h'.spans[i].mark)
    {
      SweptSpan(h.spans, h'.spans, i, h.used);
      hide Has, Sweepable, Sweeping;
    }
    hide Has, Sweepable, Sweeping, ZeroAt, SlotsZero;
    forall i: nat | i < h'.used && h'.spans[i].state == Large && h'.spans[i].noscan
      ensures NoPointers(h'.bits, SPAN_WORDS * i, h'.spans[i].objBytes / 8)
    {
      assert h.spans[i].state == Large;
    }
  }

  /** Marking and sweeping leave exactly what is reached. */
  lemma SweptExactly(h0: Heap, roots: seq<Word>, h1: Heap, marked: set<Obj>, gray: seq<Obj>, mstack: seq<Word>, h2: Heap)
    requires Marking(h0, h1, marked, gray, mstack) && Sound(h0) && forall o :: o in marked <==> Reached(h0, roots, o)
    requires Sweepable(h1.spans, h1.used) && Sweeping(h1.spans, h2.spans, h1.used) && h2 == h1.(spans := h2.spans)
    requires Sound(h2)
    ensures Collected(h0, roots, h2)
  {
    MarkedSweepable(h0, h1, marked, gray, mstack);
    SameHeap(h0, h1);
    forall o
      ensures Allocated(h2, o) <==> Reached(h0, roots, o)
      ensures Allocated(h2, o) ==> Allocated(h0, o) && SamePlace(h0, h2, o)
    {
      SweptObjects(h1, h2, o);
      hide Has, Sweepable, Sweeping, SpansOk, Reached, Shape;
      if o in marked {
        SamePlaces(h0, h1, o);
        PlacesTrans(h0, h1, h2, o);
      }
    }
    hide *;
  }

  lemma SamePlaces(h: Heap, h': Heap, o: Obj)
    requires SameButMarks(h, h') && o.span < |h.spans|
    ensures SamePlace(h, h', o)
  {
    hide TableOk;
  }

  lemma PlacesTrans(a: Heap, b: Heap, c: Heap, o: Obj)
    requires SamePlace(a, b, o)
    ensures SamePlace(b, c, o) ==> SamePlace(a, c, o)
  {
    hide Start, Words, Extent;
  }

  lemma SweptLists(g: Gc, s0: seq<Span>, live: nat)
    requires SweepState(g, s0, g.used, live) && |g.cur| == NUM_CLASSES && forall c :: 0 <= c < NUM_CLASSES ==> g.cur[c] == None
    ensures Listed(g) && RoomListed(g.spans[..], g.used, g.cur, g.partial) && live == AllocBytes(g.spans[..], g.used)
  {
    SweepLength(s0, g.spans[..], g.used);
    hide Sweeping, HasRoom;
    var spans := g.spans[..];
    assert FreeCover(g.freeSpans, spans, g.used);
    forall c: nat | c < NUM_CLASSES
      ensures PartialOk(g.partial[c], c, g.cur[c], spans, g.used)
    {
      assert ClassList(g.partial[c], spans, c, g.used);
    }
  }

  lemma ShapeSame(h: Heap, h': Heap, used: nat)
    requires Shape(h) && h' == h.(spans := h'.spans) && |h'.spans| == |h.spans| && MarksClear(h'.spans) && SpansOk(h'.spans, h.used)
    ensures Sound(h')
  {
    hide Has, SpanOk;
    forall i | 0 <= i < |h'.spans|
      ensures TableOk(h'.spans[i])
    {
      assert NoMarks(h'.spans[i]);
    }
  }

  lemma HeapParts(h: Heap)
    ensures HeapOk(h) ==> Sound(h) && MarksClear(h.spans) && ZeroOk(h) && NoscanClear(h)
    ensures Sound(h) && MarksClear(h.spans) && ZeroOk(h) && NoscanClear(h) ==> HeapOk(h)
    ensures Sound(h) ==> Shape(h) && SpansOk(h.spans, h.used)
  {
    hide Shape, SpansOk, MarksClear, ZeroOk, NoscanClear;
  }

  lemma MarkedZero(h0: Heap, h1: Heap)
    requires HeapOk(h0) && SameButMarks(h0, h1)
    ensures Shape(h1) && ZeroOk(h1) && NoscanClear(h1)
  {
    assert Shape(h1);
    hide SpansOk, MarksClear, Has, ZeroAt;
    forall i: nat | i < h1.used && h1.spans[i].state == Small && !h1.spans[i].needzero
      ensures SlotsZero(h1, i)
    {
      assert SlotsZero(h0, i);
      assert SameButMark(h0.spans[i], h1.spans[i]);
    }
    forall i: nat | i < h1.used && h1.spans[i].state == Large && h1.spans[i].noscan
      ensures NoPointers(h1.bits, SPAN_WORDS * i, h1.spans[i].objBytes / 8)
    {
      assert SameButMark(h0.spans[i], h1.spans[i]);
      assert NoPointers(h0.bits, SPAN_WORDS * i, h0.spans[i].objBytes / 8);
    }
  }

  lemma SweepTable(g: Gc, s0: seq<Span>, live: nat)
    requires SweepState(g, s0, g.used, live)
    ensures Sweeping(s0, g.spans[..], g.used)
  {
    hide Sweeping, FreeList, ClassLists, NonFree, AllocBytes;
  }

  /** The mark phase and the sweep. */
  method MarkAndSweep(g: Gc, roots: seq<Word>) returns (live: nat)
    requires Valid(g)
    modifies g`mstack, g`gray, g`marked, g`freeSpans, g`partial, g`cur, g`inUse, g.spans
    ensures HeapOk(g.H()) && Listed(g) && Quiet(g) && Collected(old(g.H()), roots, g.H())
    ensures RoomListed(g.spans[..], g.used, g.cur, g.partial)
    ensures live == AllocBytes(g.spans[..], g.used)
  {
    hide HeapOk, Marking, Sweepable, Sweeping, SweepState, Collected, Reached, ZeroOk, NoscanClear, NonFree, AllocBytes;
    hide Sound, Shape, MarksClear, SpansOk, SameButMarks, FreeCover, CurOk, PartialsOk;
    ghost var h0 := g.H();
    HeapParts(h0);
    MarkingStarts(h0);
    Mark(g, roots, h0);
    ghost var h1, marked, gray, mstack := g.H(), g.marked, g.gray, g.mstack;
    MarkedSweepable(h0, h1, marked, gray, mstack);
    MarkingHeap(h0, h1, marked, gray, mstack);
    SameHeap(h0, h1);
    MarkedZero(h0, h1);
    live := Sweep(g, h1.spans);
    ghost var h2 := g.H();
    SweepTable(g, h1.spans, live);
    SweepLength(h1.spans, h2.spans, g.used);
    SweptLists(g, h1.spans, live);
    hide RoomListed;
    g.marked, g.gray := {}, [];
    assert g.H() == h2;
    SweptSound(h1.spans, h2.spans, h1.used);
    ShapeSame(h1, h2, h1.used);
    HeapParts(h2);
    SweptZero(h1, h2);
    SweptExactly(h0, roots, h1, marked, gray, mstack, h2);
  }

  /** `ubel_gc_collect`. The roots are the words on the stack, in scannable arenas and in registered regions. */
  method Collect(g: Gc, roots: seq<Word>)
    requires Valid(g)
    modifies g`lastLive, g`sinceGc, g`trigger, g`mstack, g`gray, g`marked, g`freeSpans, g`partial, g`cur, g`inUse, g.spans
    ensures Valid(g) && Collected(old(g.H()), roots, g.H())
    ensures g.sinceGc == 0 && g.lastLive == AllocBytes(g.spans[..], g.used) && Triggered(g)
  {
    hide HeapOk, ListsOk, RoomListed, Collected, AllocBytes;
    var live := MarkAndSweep(g, roots);
    g.lastLive := live;
    g.sinceGc := 0;
    g.trigger := Pace(live, g.minTrigger, g.stressEvery);
  }

  /** `gc_trigger`: in stress mode only every so-many-th call collects. */
  method GcTrigger(g: Gc, roots: seq<Word>) returns (collected: bool)
    requires Valid(g)
    modifies g`lastLive, g`sinceGc, g`trigger, g`mstack, g`gray, g`marked, g`freeSpans, g`partial, g`cur, g`inUse, g`stressSkip, g.spans
    ensures Valid(g) && if collected then Collected(old(g.H()), roots, g.H()) && g.sinceGc == 0 else g.H() == old(g.H())
    ensures collected <==> g.stressEvery <= 1 || old(g.stressSkip) + 1 >= g.stressEvery
    ensures g.stressSkip == if collected then 0 else old(g.stressSkip) + 1
    ensures !collected ==> g.sinceGc == old(g.sinceGc) && g.lastLive == old(g.lastLive)
  {
    hide HeapOk, ListsOk, RoomListed, Collected, AllocBytes;
    if g.stressEvery > 1 {
      g.stressSkip := g.stressSkip + 1;
      if g.stressSkip < g.stressEvery {
        return false;
      }
    }
    g.stressSkip := 0;
    Collect(g, roots);
    collected := true;
  }
}

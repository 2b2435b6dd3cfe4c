/** Whole runs of the collected heap: any sequence of collections, allocations and stores. */
module GcRuns {
  import opened Wrappers
  import opened BitWords
  import opened BitTable
  import opened GcHeap
  import opened GcState
  import opened GcSweep
  import opened GcCollect
  import opened GcAlloc
  import opened GcSlots
  import opened GcLarge
  import opened GcObjects
  import opened GcApi

  // ---------------------------------------------------------------- an empty heap

  lemma EmptyHeap(h: Heap)
    requires h.used == 0 && h.base + SPAN_SIZE * |h.spans| <= ADDRESSES && |h.mem| == SPAN_WORDS * |h.spans|
    requires 64 * |h.bits| >= |h.mem| + 64 && (forall i :: 0 <= i < |h.spans| ==> h.spans[i] == FREE_SPAN)
    requires forall w :: 0 <= w < |h.mem| ==> h.mem[w] == 0
    ensures HeapOk(h) && forall o :: !Allocated(h, o)
  {
    forall k: nat | k < SLOTS
      ensures !Has(NO_BITS, k)
    {
      NoBitsSet(k);
    }
    hide Has;
  }

  /** `ubel_gc_init` gives a heap on which every operation may be called. */
  method Init(base: Word, n: nat, minTrigger: nat, stressEvery: nat) returns (g: Gc)
    requires base + SPAN_SIZE * n <= ADDRESSES
    ensures fresh(g) && fresh(g.spans) && fresh(g.mem) && fresh(g.bits) && Valid(g)
    ensures g.minTrigger == minTrigger && g.stressEvery == stressEvery && forall o :: !Allocated(g.H(), o)
  {
    g := new Gc(base, n, minTrigger, stressEvery);
    EmptyHeap(g.H());
    assert ListsOk(g.spans[..], g.used, g.inUse, g.freeSpans, g.cur, g.partial) by {
      hide HeapOk, HasRoom;
    }
    hide HeapOk, ListsOk;
    assert RoomListed(g.spans[..], g.used, g.cur, g.partial);
  }

  // ---------------------------------------------------------------- runs

  /** A heap, and what the program has declared of each of its objects. */
  datatype Snapshot = Snapshot(h: Heap, layouts: map<Obj, Layout>)

  datatype Event =
    | Collection(roots: seq<Word>)
    | Allocation(roots: seq<Word>, mid: Heap, obj: Obj, size: nat, layout: Layout)
    | Write(obj: Obj, word: nat, value: Word)

  ghost function Only(layouts: map<Obj, Layout>, h: Heap): map<Obj, Layout>
    requires Sound(h)
  {
    map o | o in layouts && Allocated(h, o) :: layouts[o]
  }

  /** What one call of the interface does. */
  ghost predicate Happens(s: Snapshot, e: Event, t: Snapshot) {
    && Sound(s.h) && Sound(t.h)
    && match e
       case Collection(roots) => Collected(s.h, roots, t.h) && t.layouts == Only(s.layouts, t.h)
       case Allocation(roots, mid, o, size, l) =>
         Sound(mid) && Gave(s.h, roots, mid, t.h, o, size, l) && t.layouts == Only(s.layouts, mid)[o := l]
       case Write(o, w, v) => Stored(s.h, t.h, o, w, v) && t.layouts == s.layouts
  }

  /** `Collect` is a step of a run. */
  method CollectStep(g: Gc, roots: seq<Word>, ghost s: Snapshot) returns (ghost t: Snapshot)
    requires Valid(g) && s.h == g.H()
    modifies g`lastLive, g`sinceGc, g`trigger, g`mstack, g`gray, g`marked, g`freeSpans, g`partial, g`cur, g`inUse, g.spans
    ensures Valid(g) && t.h == g.H() && Happens(s, Collection(roots), t)
  {
    hide HeapOk, ListsOk, AllocBytes, Collected;
    HeapParts(s.h);
    Collect(g, roots);
    HeapParts(g.H());
    t := Snapshot(g.H(), Only(s.layouts, g.H()));
  }

  /** What a completed allocation adds to a run. */
  ghost function AfterAllocation(s: Snapshot, mid: Heap, h: Heap, o: Obj, l: Layout): Snapshot
    requires Sound(mid)
  {
    Snapshot(h, Only(s.layouts, mid)[o := l])
  }

  lemma GaveStep(s: Snapshot, roots: seq<Word>, mid: Heap, h: Heap, o: Obj, size: nat, l: Layout)
    requires HeapOk(s.h) && HeapOk(h) && Gave(s.h, roots, mid, h, o, size, l)
    ensures Sound(mid) && Happens(s, Allocation(roots, mid, o, size, l), AfterAllocation(s, mid, h, o, l))
  {
    HeapParts(s.h);
    HeapParts(h);
    BeganSound(s.h, roots, mid);
    hide HeapOk, Sound, Handed, Agrees;
  }

  /** `Alloc` is a step of a run, unless it stops the program. */
  method AllocStep(g: Gc, size: nat, mask: bv64, roots: seq<Word>, ghost s: Snapshot) returns (r: Reply, ghost e: Event, ghost t: Snapshot)
    requires Valid(g) && s.h == g.H()
    modifies g, g.spans, g.mem, g.bits
    ensures r.Given? ==> Valid(g) && t.h == g.H() && Happens(s, e, t)
                         && e.Allocation? && e.obj == r.obj && e.size == size && e.layout == Mask(mask) && e.roots == roots
  {
    hide HeapOk, ListsOk, AllocBytes, Gave, Happens;
    ghost var mid;
    r, mid := Alloc(g, size, mask, roots);
    t, e := s, Collection(roots);
    if r.Given? {
      GaveStep(s, roots, mid, g.H(), r.obj, size, Mask(mask));
      e := Allocation(roots, mid, r.obj, size, Mask(mask));
      t := AfterAllocation(s, mid, g.H(), r.obj, Mask(mask));
    }
  }

  /** `AllocArray` is a step of a run, unless it stops the program. */
  method AllocArrayStep(g: Gc, size: Word, count: Word, mask: bv64, roots: seq<Word>, ghost s: Snapshot)
    returns (r: Reply, ghost e: Event, ghost t: Snapshot)
    requires Valid(g) && s.h == g.H()
    modifies g, g.spans, g.mem, g.bits
    ensures r.Given? ==> Valid(g) && t.h == g.H() && Happens(s, e, t)
                         && e.Allocation? && e.obj == r.obj && e.size == ArrayBytes(size, count) && e.roots == roots
                         && e.layout == ArrayLayout(size, count, mask)
  {
    hide HeapOk, ListsOk, AllocBytes, Gave, Happens, ArrayBytes, ArrayLayout;
    ghost var mid;
    r, mid := AllocArray(g, size, count, mask, roots);
    t, e := s, Collection(roots);
    if r.Given? {
      ghost var bytes, l := ArrayBytes(size, count), ArrayLayout(size, count, mask);
      GaveStep(s, roots, mid, g.H(), r.obj, bytes, l);
      e := Allocation(roots, mid, r.obj, bytes, l);
      t := AfterAllocation(s, mid, g.H(), r.obj, l);
    }
  }

  /** A store of the program is a step of a run. */
  method StoreStep(g: Gc, o: Obj, w: nat, v: Word, ghost s: Snapshot) returns (ghost t: Snapshot)
    requires Valid(g) && s.h == g.H() && Allocated(g.H(), o) && w < Extent(g.H(), o)
    modifies g.mem
    ensures Valid(g) && t.h == g.H() && Happens(s, Write(o, w, v), t)
  {
    hide HeapOk, ListsOk, AllocBytes, Stored, Allocated, Extent;
    HeapParts(s.h);
    Store(g, o, w, v);
    HeapParts(g.H());
    t := Snapshot(g.H(), s.layouts);
  }

  /** Every allocated object has the pointer bits that its allocation declared, and nothing else is recorded. */
  ghost predicate Agreed(s: Snapshot)
    requires Sound(s.h)
  {
    && (forall o :: Allocated(s.h, o) <==> o in s.layouts)
    && forall o :: o in s.layouts ==> Agrees(s.h, o, s.layouts[o])
  }

  ghost predicate Run(states: seq<Snapshot>, events: seq<Event>) {
    && |states| == |events| + 1 && Sound(states[0].h) && Agreed(states[0])
    && forall i: nat :: i < |events| ==> Happens(states[i], events[i], states[i + 1])
  }

  lemma RunSound(states: seq<Snapshot>, events: seq<Event>, i: nat)
    requires Run(states, events) && i < |states|
    ensures Sound(states[i].h)
  {
    hide Sound, Agreed, Agrees;
    if i > 0 {
      assert Happens(states[i - 1], events[i - 1], states[i]);
    }
  }

  lemma AgreesKept(h: Heap, h': Heap, o: Obj, l: Layout)
    requires SamePlace(h, h', o) && PointerBitsKept(h, h', o) && Agrees(h, o, l)
    ensures Agrees(h', o, l)
  {
    hide Has, Declared, Start, Words, Extent;
    forall w: nat | w < Words(h', o) && Start(h', o) + w < 64 * |h'.bits|
      ensures Has(h'.bits, Start(h', o) + w) <==> Declared(l, w)
    {
      assert Has(h.bits, Start(h, o) + w) <==> Declared(l, w);
    }
  }

  lemma CollectAgrees(h: Heap, roots: seq<Word>, h': Heap, layouts: map<Obj, Layout>)
    requires Sound(h) && Sound(h') && Collected(h, roots, h') && Agreed(Snapshot(h, layouts))
    ensures Agreed(Snapshot(h', Only(layouts, h')))
  {
    hide Sound, Allocated, Reached, Agrees, SamePlace, PointerBitsKept;
    forall o | o in Only(layouts, h')
      ensures Agrees(h', o, layouts[o])
    {
      BitsUnchanged(h, h', o);
      AgreesKept(h, h', o, layouts[o]);
    }
  }

  lemma BitsUnchanged(h: Heap, h': Heap, o: Obj)
    requires h'.bits == h.bits && SamePlace(h, h', o)
    ensures PointerBitsKept(h, h', o)
  {
    hide Has, Start, Words, Extent;
  }

  lemma BeganAgrees(h: Heap, roots: seq<Word>, mid: Heap, layouts: map<Obj, Layout>)
    requires Sound(h) && Sound(mid) && Began(h, roots, mid) && Agreed(Snapshot(h, layouts))
    ensures Agreed(Snapshot(mid, Only(layouts, mid)))
  {
    hide Sound, Allocated, Agrees, Collected;
    if mid == h {
      assert Only(layouts, mid) == layouts;
    } else {
      CollectAgrees(h, roots, mid, layouts);
    }
  }

  lemma HandedAgrees(h: Heap, h': Heap, o: Obj, size: nat, l: Layout, layouts: map<Obj, Layout>)
    requires Sound(h) && Sound(h') && Handed(h, h', o, size) && Agrees(h', o, l) && Agreed(Snapshot(h, layouts))
    ensures Agreed(Snapshot(h', layouts[o := l]))
  {
    hide Sound, Allocated, Agrees, PointerBitsKept, SameMem, SamePlace, Zeroed;
    forall p | p in layouts && p != o
      ensures Agrees(h', p, layouts[p])
    {
      AgreesKept(h, h', p, layouts[p]);
    }
  }

  lemma StoredAgrees(h: Heap, h': Heap, o: Obj, w: nat, v: Word, layouts: map<Obj, Layout>)
    requires Sound(h) && Sound(h') && Stored(h, h', o, w, v) && Agreed(Snapshot(h, layouts))
    ensures Agreed(Snapshot(h', layouts))
  {
    hide SpansOk, Has, BitsAgree;
    forall p
      ensures Allocated(h', p) <==> Allocated(h, p)
      ensures forall l :: Agrees(h, p, l) ==> Agrees(h', p, l)
    {
    }
  }

  lemma StepAgrees(s: Snapshot, e: Event, t: Snapshot)
    requires Happens(s, e, t) && Agreed(s)
    ensures Agreed(t)
  {
    hide Sound, Agreed, Agrees, Handed, Stored, Collected, Began, Allocated, Only;
    match e {
      case Collection(roots) => CollectAgrees(s.h, roots, t.h, s.layouts);
      case Allocation(roots, mid, o, size, l) =>
        BeganAgrees(s.h, roots, mid, s.layouts);
        HandedAgrees(mid, t.h, o, size, l, Only(s.layouts, mid));
      case Write(o, w, v) => StoredAgrees(s.h, t.h, o, w, v, s.layouts);
    }
  }

  /** Whatever the program does, the bitmap and the declared layouts agree after every call. */
  lemma {:induction false} LayoutsHold(states: seq<Snapshot>, events: seq<Event>, i: nat)
    requires Run(states, events) && i < |states|
    ensures Sound(states[i].h) && Agreed(states[i])
    decreases i
  {
    hide Sound, Agreed;
    RunSound(states, events, i);
    if i > 0 {
      LayoutsHold(states, events, i - 1);
      assert Happens(states[i - 1], events[i - 1], states[i]);
      hide Happens;
      StepAgrees(states[i - 1], events[i - 1], states[i]);
    }
  }

  // ---------------------------------------------------------------- which pointers are followed

  /** The whole word at byte `8 * w` of object `o` is the address of a byte of object `p`. */
  ghost predicate Refers(h: Heap, o: Obj, w: nat, p: Obj)
    requires Shape(h) && o.span < |h.spans|
  {
    && Allocated(h, p) && 8 * w + 8 <= Bytes(h, o)
    && var at := (Addr(h, o) + 8 * w - h.base) / 8;
       0 <= at < |h.mem| && Addr(h, p) <= h.mem[at] < Addr(h, p) + Bytes(h, p)
  }

  lemma WordAt(h: Heap, o: Obj, w: nat)
    requires o.span < |h.spans|
    ensures (Addr(h, o) + 8 * w - h.base) / 8 == Start(h, o) + w
    ensures 8 * w + 8 <= Bytes(h, o) <==> w < Words(h, o)
  {
    hide SlotStart;
  }

  lemma EdgeRefers(h: Heap, o: Obj, w: nat, p: Obj, l: Layout)
    requires Sound(h) && Allocated(h, o) && Agrees(h, o, l) && Start(h, o) + Words(h, o) <= 64 * |h.bits|
    ensures EdgeAt(h, o, w, p) <==> Declared(l, w) && Refers(h, o, w, p)
  {
    hide Has, Declared, SpansOk, Points;
    WordAt(h, o, w);
    hide Start, Words, Bytes, Addr;
    if w < Words(h, o) && Start(h, o) + w < |h.mem| {
      PointsInto(h, h.mem[Start(h, o) + w], p);
    }
  }

  /** Over every run: the collector follows exactly the words that an allocation has declared to be pointers and that
      are the address of a byte of an allocated object. */
  lemma EdgesAreDeclared(states: seq<Snapshot>, events: seq<Event>, i: nat, o: Obj, p: Obj)
    requires Run(states, events) && i < |states| && Sound(states[i].h)
    ensures var s := states[i];
            Edge(s.h, o, p) <==> o in s.layouts && Allocated(s.h, o) && exists w: nat :: Declared(s.layouts[o], w) && Refers(s.h, o, w, p)
  {
    LayoutsHold(states, events, i);
    var s := states[i];
    hide Run, Agrees, EdgeAt, Declared, Refers, Allocated;
    if Allocated(s.h, o) {
      WordsInside(s.h, o);
      hide Sound;
      forall w: nat
        ensures EdgeAt(s.h, o, w, p) <==> Declared(s.layouts[o], w) && Refers(s.h, o, w, p)
      {
        EdgeRefers(s.h, o, w, p, s.layouts[o]);
      }
    }
  }

  lemma WordsInside(h: Heap, o: Obj)
    requires Sound(h) && Allocated(h, o)
    ensures Start(h, o) + Words(h, o) <= 64 * |h.bits|
  {
    InBounds(h, o);
    hide SpansOk, Allocated, Start, Words, Extent;
  }

  // ---------------------------------------------------------------- what the roots reach survives

  /** If the event collects, its roots reach the object; and it does not write word `w` of the object. */
  ghost predicate Keeps(s: Snapshot, e: Event, o: Obj, w: nat)
    requires Sound(s.h)
  {
    match e
    case Collection(roots) => Reached(s.h, roots, o)
    case Allocation(roots, mid, _, _, _) => mid == s.h || Reached(s.h, roots, o)
    case Write(p, x, _) => !(p == o && x == w)
  }

  /** Word `w` of the object is where it was, with the value it had. */
  ghost predicate SameWord(h: Heap, h': Heap, o: Obj, w: nat) {
    && SamePlace(h, h', o) && h'.base == h.base
    && (w < Extent(h, o) && Start(h, o) + w < |h.mem| && Start(h, o) + w < |h'.mem| ==> h'.mem[Start(h, o) + w] == h.mem[Start(h, o) + w])
  }

  lemma CollectKeeps(h: Heap, roots: seq<Word>, h': Heap, o: Obj, w: nat)
    requires Collected(h, roots, h') && Reached(h, roots, o)
    ensures Allocated(h', o) && SameWord(h, h', o, w)
  {
    hide Sound, Reached, Start, Words, Extent, Allocated;
  }

  lemma HandedKeeps(h: Heap, h': Heap, p: Obj, size: nat, o: Obj, w: nat)
    requires Handed(h, h', p, size) && Allocated(h, o)
    ensures Allocated(h', o) && SameWord(h, h', o, w)
  {
    assert p != o;
    assert SameObject(h, h', o);
    hide Sound, Start, Words, Extent, Allocated, PointerBitsKept, Zeroed;
  }

  lemma StoredKeeps(h: Heap, h': Heap, p: Obj, x: nat, v: Word, o: Obj, w: nat)
    requires Stored(h, h', p, x, v) && Sound(h') && Allocated(h, o) && !(p == o && x == w)
    ensures Allocated(h', o) && SameWord(h, h', o, w)
  {
    assert Allocated(h', o) && SamePlace(h, h', o);
    if p != o {
      Disjoint(h, p, o);
    }
    hide Sound, Start, Words, Extent, Allocated;
  }

  lemma SameWordTrans(a: Heap, b: Heap, c: Heap, o: Obj, w: nat)
    requires SameWord(a, b, o, w) && SameWord(b, c, o, w) && |b.mem| == |a.mem|
    ensures SameWord(a, c, o, w)
  {
    hide Start, Words, Extent, Noscan;
  }

  lemma StepKeeps(s: Snapshot, e: Event, t: Snapshot, o: Obj, w: nat)
    requires Happens(s, e, t) && Keeps(s, e, o, w) && Allocated(s.h, o)
    ensures Allocated(t.h, o) && SameWord(s.h, t.h, o, w) && |t.h.mem| == |s.h.mem|
  {
    hide Sound, Agrees, Handed, Stored, Collected, Allocated, Only, SameWord, Reached;
    match e {
      case Collection(roots) =>
        CollectKeeps(s.h, roots, t.h, o, w);
        CollectedSize(s.h, roots, t.h);
      case Allocation(roots, mid, p, size, l) =>
        SameWordRefl(s.h, o, w);
        if mid != s.h {
          CollectKeeps(s.h, roots, mid, o, w);
          CollectedSize(s.h, roots, mid);
        }
        HandedKeeps(mid, t.h, p, size, o, w);
        HandedSize(mid, t.h, p, size);
        SameWordTrans(s.h, mid, t.h, o, w);
      case Write(p, x, v) =>
        StoredKeeps(s.h, t.h, p, x, v, o, w);
        StoredSize(s.h, t.h, p, x, v);
    }
  }

  lemma SameWordRefl(h: Heap, o: Obj, w: nat)
    requires Sound(h) && Allocated(h, o)
    ensures SameWord(h, h, o, w)
  {
    hide SpansOk, Has;
  }

  lemma CollectedSize(h: Heap, roots: seq<Word>, h': Heap)
    requires Collected(h, roots, h')
    ensures |h'.mem| == |h.mem|
  {
    hide Sound, Reached, Allocated, SamePlace;
  }

  lemma HandedSize(h: Heap, h': Heap, o: Obj, size: nat)
    requires Handed(h, h', o, size)
    ensures |h'.mem| == |h.mem|
  {
    hide SpansOk, Allocated, SameObject, PointerBitsKept, Zeroed;
  }

  lemma StoredSize(h: Heap, h': Heap, o: Obj, w: nat, v: Word)
    requires Stored(h, h', o, w, v)
    ensures |h'.mem| == |h.mem|
  {
    hide Sound, Allocated, Start, Extent;
  }

  ghost predicate KeepsAll(states: seq<Snapshot>, events: seq<Event>, i: nat, j: nat, o: Obj, w: nat) {
    forall k: nat :: i <= k < j && k < |events| && k < |states| ==> Sound(states[k].h) && Keeps(states[k], events[k], o, w)
  }

  /** Over any run, an object that every collection's roots reach stays allocated at its address, and each of its words
      keeps its value until the program writes it. */
  lemma {:induction false} ReachableSurvive(states: seq<Snapshot>, events: seq<Event>, i: nat, j: nat, o: Obj, w: nat)
    requires Run(states, events) && i <= j < |states| && Sound(states[i].h) && Allocated(states[i].h, o)
    requires KeepsAll(states, events, i, j, o, w)
    ensures Sound(states[j].h) && Allocated(states[j].h, o) && SameWord(states[i].h, states[j].h, o, w)
    ensures |states[j].h.mem| == |states[i].h.mem| && Addr(states[j].h, o) == Addr(states[i].h, o)
    decreases j
  {
    hide Sound, Agreed, Allocated, SameWord, Keeps;
    RunSound(states, events, i);
    RunSound(states, events, j);
    if i == j {
      SameWordRefl(states[i].h, o, w);
      hide Run;
    } else {
      ReachableSurvive(states, events, i, j - 1, o, w);
      assert Happens(states[j - 1], events[j - 1], states[j]);
      hide Happens, Run;
      StepKeeps(states[j - 1], events[j - 1], states[j], o, w);
      SameWordTrans(states[i].h, states[j - 1].h, states[j].h, o, w);
    }
    SameAddr(states[i].h, states[j].h, o, w);
  }

  lemma SameAddr(h: Heap, h': Heap, o: Obj, w: nat)
    requires SameWord(h, h', o, w)
    ensures o.span < |h.spans| && o.span < |h'.spans| && Addr(h', o) == Addr(h, o)
  {
    hide Start, Words, Extent;
  }
}

/** Counting an allocation, and finding a slot for it. */
module GcSlots {
  import opened Wrappers
  import opened BitWords
  import opened BitTable
  import opened GcHeap
  import opened GcState
  import opened GcSweep
  import opened GcCollect
  import opened GcAlloc

  /** The heap an allocation starts from: as it was, or just collected. */
  ghost predicate Began(h: Heap, roots: seq<Word>, mid: Heap) {
    mid == h || Collected(h, roots, mid)
  }

  /** Outside stress mode, no more has been allocated since the last collection than the pace allows and the `n` bytes
      just counted. */
  ghost predicate Paced(g: Gc, n: nat)
    reads g
  {
    g.stressEvery == 0 ==> g.sinceGc <= g.trigger + n
  }

  /** A collection is due: enough has been allocated since the last one, and in stress mode this is the so-many-th call. */
  predicate Due(sinceGc: nat, trigger: nat, stressEvery: nat, stressSkip: nat) {
    sinceGc >= trigger && (stressEvery <= 1 || stressSkip + 1 >= stressEvery)
  }

  /** Collects if enough has been allocated since the last collection, and counts `n` bytes. */
  method Charge(g: Gc, n: nat, roots: seq<Word>) returns (ghost mid: Heap)
    requires Valid(g)
    modifies g`lastLive, g`sinceGc, g`trigger, g`mstack, g`gray, g`marked, g`freeSpans, g`partial, g`cur, g`inUse, g`stressSkip, g.spans
    ensures Owing(g, n) && Paced(g, n) && mid == g.H() && Began(old(g.H()), roots, mid)
    ensures Due(old(g.sinceGc), old(g.trigger), g.stressEvery, old(g.stressSkip)) ==> Collected(old(g.H()), roots, mid) && g.sinceGc == n
    ensures !Due(old(g.sinceGc), old(g.trigger), g.stressEvery, old(g.stressSkip)) ==> mid == old(g.H()) && g.sinceGc == old(g.sinceGc) + n
  {
    hide HeapOk, ListsOk, RoomListed, Collected, AllocBytes;
    if g.sinceGc >= g.trigger {
      var _ := GcTrigger(g, roots);
    }
    mid := g.H();
    g.sinceGc := g.sinceGc + n;
  }

  lemma PopPartial(spans: seq<Span>, used: nat, inUse: nat, free: seq<nat>, cur: seq<Option<nat>>, partial: seq<seq<nat>>, cls: nat)
    requires ListsOk(spans, used, inUse, free, cur, partial) && cls < NUM_CLASSES && |partial| == |cur| == NUM_CLASSES && partial[cls] != []
    ensures var x := partial[cls][0];
            && x < used <= |spans| && spans[x].state == Small && spans[x].cls == cls && HasRoom(spans[x])
            && ListsOk(spans, used, inUse, free, cur[cls := Some(x)], partial[cls := partial[cls][1..]])
  {
    hide HasRoom, NonFree;
    var x, tail := partial[cls][0], partial[cls][1..];
    assert PartialOk(partial[cls], cls, cur[cls], spans, used);
    assert x in partial[cls];
    var cur', partial' := cur[cls := Some(x)], partial[cls := tail];
    forall c: nat | c < NUM_CLASSES
      ensures PartialOk(partial'[c], c, cur'[c], spans, used)
    {
      assert PartialOk(partial[c], c, cur[c], spans, used);
      if c == cls {
        forall y | y in tail
          ensures y in partial[cls] && y != x
        {
          var k :| 0 <= k < |tail| && tail[k] == y;
          assert partial[cls][k + 1] == y;
        }
      }
    }
  }

  lemma UseOpened(spans: seq<Span>, used: nat, inUse: nat, free: seq<nat>, cur: seq<Option<nat>>, partial: seq<seq<nat>>, cls: nat, i: nat)
    requires ListsOk(spans, used, inUse, free, cur, partial) && cls < NUM_CLASSES && |partial| == |cur| == NUM_CLASSES
    requires i < used <= |spans| && spans[i].state == Small && spans[i].cls == cls && i !in partial[cls]
    ensures ListsOk(spans, used, inUse, free, cur[cls := Some(i)], partial)
  {
    hide HasRoom, NonFree;
    forall c: nat | c < NUM_CLASSES
      ensures PartialOk(partial[c], c, cur[cls := Some(i)][c], spans, used)
    {
      assert PartialOk(partial[c], c, cur[c], spans, used);
    }
  }

  lemma ListSizes(g: Gc)
    requires Listed(g)
    ensures |g.cur| == |g.partial| == NUM_CLASSES && g.used <= g.spans.Length
    ensures forall c: nat :: c < NUM_CLASSES && g.cur[c].Some? ==>
              g.cur[c].value < g.used && g.spans[g.cur[c].value].state == Small && g.spans[g.cur[c].value].cls == c
  {
    hide FreeCover, PartialOk, NonFree;
  }

  /** All of the heap has been used, and no span is free. */
  ghost predicate FullHeap(h: Heap) {
    h.used == |h.spans| && forall j: nat :: j < |h.spans| ==> h.spans[j].state != Free
  }

  // ---------------------------------------------------------------- where a slot comes from

  /** Span `j` holds objects of class `cls`, and room for one more. */
  ghost predicate RoomIn(h: Heap, cls: nat, j: nat) {
    && Shape(h) && j < h.used && h.spans[j].state == Small && h.spans[j].cls == cls
    && exists k: nat :: k < h.spans[j].nelems && !Allocated(h, Obj(j, k))
  }

  ghost predicate FreeIn(h: Heap, j: nat) {
    j < h.used && j < |h.spans| && h.spans[j].state == Free
  }

  /** A slot of class `cls` comes from a span of that class as long as one has room, then from a free span, and from heap
      that was never used only when no span is free. */
  ghost predicate BestSpan(h: Heap, cls: nat, i: nat) {
    if exists j :: RoomIn(h, cls, j) then RoomIn(h, cls, i)
    else if exists j :: FreeIn(h, j) then FreeIn(h, i)
    else i == h.used < |h.spans|
  }

  /** Nothing is left for class `cls`: no slot, no free span, and no heap that was never used. */
  ghost predicate NoSlot(h: Heap, cls: nat) {
    FullHeap(h) && forall j :: !RoomIn(h, cls, j)
  }

  /** The lowest free slot of the best span. */
  ghost predicate BestSlot(h: Heap, cls: nat, o: Obj) {
    BestSpan(h, cls, o.span) && TakenBelow(h, o.span, o.slot)
  }

  lemma BestIsLeft(h: Heap, cls: nat, o: Obj)
    requires BestSlot(h, cls, o)
    ensures !NoSlot(h, cls)
  {
    hide RoomIn, TakenBelow;
    if j: nat :| FreeIn(h, j) {
      assert h.spans[j].state == Free;
    }
  }

  /** The map of a span says which slots are free. */
  lemma RoomMeans(h: Heap, cls: nat, j: nat)
    requires HeapOk(h) && j < h.used && j < |h.spans| && h.spans[j].state == Small && h.spans[j].cls == cls
    ensures HasRoom(h.spans[j]) <==> RoomIn(h, cls, j)
  {
    var s := h.spans[j];
    SpanSmall(h, j);
    HeapParts(h);
    hide HeapOk, Has, SpansOk, MarksClear, ZeroOk, NoscanClear, SlotsZero, SmallOk, SlotStart;
    CountFull(s.alloc, s.nelems);
    CountAtMost(s.alloc, s.nelems);
    if k: nat :| k < s.nelems && !Has(s.alloc, k) {
      assert !Allocated(h, Obj(j, k));
    }
  }

  lemma CountAtMost(t: seq<bv64>, n: nat)
    requires n <= 64 * |t|
    ensures Count(t, n) <= n
  {
    CountBound(t, n);
  }

  lemma RoomSame(a: Heap, b: Heap, cls: nat)
    requires Shape(a) && Shape(b) && SameSpans(a.spans, b.spans) && a.used == b.used
    ensures forall j :: RoomIn(a, cls, j) <==> RoomIn(b, cls, j)
    ensures forall j :: FreeIn(a, j) <==> FreeIn(b, j)
    ensures NoSlot(b, cls) ==> NoSlot(a, cls)
    ensures forall i :: BestSpan(b, cls, i) ==> BestSpan(a, cls, i)
  {
    hide Has, SpansOk;
    forall j
      ensures RoomIn(a, cls, j) <==> RoomIn(b, cls, j)
    {
      SpanRoomSame(a, b, cls, j);
    }
    hide RoomIn;
  }

  lemma SpanRoomSame(a: Heap, b: Heap, cls: nat, j: nat)
    requires Shape(a) && Shape(b) && SameSpans(a.spans, b.spans) && a.used == b.used
    ensures RoomIn(a, cls, j) <==> RoomIn(b, cls, j)
  {
    hide Has, SpansOk;
    forall k: nat
      ensures Allocated(a, Obj(j, k)) <==> Allocated(b, Obj(j, k))
    {
    }
    hide Allocated;
  }

  /** The lists of a class are empty only if no span of the class has room. */
  lemma NoneWaits(h: Heap, cls: nat, cur: seq<Option<nat>>, partial: seq<seq<nat>>)
    requires HeapOk(h) && RoomListed(h.spans, h.used, cur, partial) && cls < NUM_CLASSES && partial[cls] == []
    requires cur[cls].Some? ==> cur[cls].value < |h.spans| && !HasRoom(h.spans[cur[cls].value])
    ensures forall j :: !RoomIn(h, cls, j)
  {
    hide HeapOk, HasRoom;
    forall j
      ensures !RoomIn(h, cls, j)
    {
      if RoomIn(h, cls, j) {
        RoomMeans(h, cls, j);
        assert false;
      }
    }
  }

  lemma WaitingFound(spans: seq<Span>, used: nat, cur: seq<Option<nat>>, partial: seq<seq<nat>>, cls: nat)
    requires RoomListed(spans, used, cur, partial) && cls < NUM_CLASSES && partial[cls] != []
    requires cur[cls].Some? ==> cur[cls].value < |spans| && !HasRoom(spans[cur[cls].value])
    ensures RoomListed(spans, used, cur[cls := Some(partial[cls][0])], partial[cls := partial[cls][1..]])
  {
    hide HasRoom;
    var x, tail := partial[cls][0], partial[cls][1..];
    assert partial[cls] == [x] + tail;
  }

  lemma OpenedFound(h: Heap, h': Heap, i: nat, cls: nat, cur: seq<Option<nat>>, partial: seq<seq<nat>>)
    requires RoomListed(h.spans, h.used, cur, partial) && Opened(h, h', i, cls)
    requires cur[cls].Some? ==> cur[cls].value < |h.spans| && !HasRoom(h.spans[cur[cls].value])
    ensures RoomListed(h'.spans, h'.used, cur[cls := Some(i)], partial)
  {
    SmallState(h.spans[i], cls, i == h.used);
    hide HasRoom, SmallSpan;
  }

  lemma SpansRefl(a: seq<Span>)
    ensures SameSpans(a, a)
  {
  }

  lemma SpansTrans(a: seq<Span>, b: seq<Span>, c: seq<Span>)
    requires SameSpans(a, b) && SameSpans(b, c)
    ensures SameSpans(a, c)
  {
  }

  /** The next span for class `cls`: one that waits with room, or else a newly opened one. */
  method NextSpan(g: Gc, cls: nat) returns (r: Option<nat>)
    requires cls < NUM_CLASSES && Owing(g, CLASS_SIZE[cls]) && |g.cur| == NUM_CLASSES
    requires g.cur[cls].Some? ==> g.cur[cls].value < g.spans.Length && !HasRoom(g.spans[g.cur[cls].value])
    modifies g`used, g`inUse, g`freeSpans, g`partial, g`cur, g.spans
    ensures r.Some? ==> Owing(g, CLASS_SIZE[cls]) && SameObjects(old(g.H()), g.H())
    ensures r.Some? ==> |g.cur| == NUM_CLASSES && g.cur[cls] == r && r.value < g.used <= g.spans.Length && HasRoom(g.spans[r.value])
                        && g.spans[r.value].state == Small && g.spans[r.value].cls == cls
    ensures if r.Some? then BestSpan(old(g.H()), cls, r.value) else NoSlot(old(g.H()), cls)
  {
    hide HeapOk, ListsOk, RoomListed, SameObjects, AllocBytes, HasRoom, CLASS_SIZE, Opened, Sound, RoomIn, FreeIn, FullHeap;
    hide BestSpan, NoSlot;
    ListSizes(g);
    ghost var h := g.H();
    HeapParts(h);
    if g.partial[cls] != [] {
      WaitingFound(h.spans, g.used, g.cur, g.partial, cls);
      PopPartial(h.spans, g.used, g.inUse, g.freeSpans, g.cur, g.partial, cls);
      r := Some(g.partial[cls][0]);
      g.partial := g.partial[cls := g.partial[cls][1..]];
      g.cur := g.cur[cls := r];
      assert g.H() == h;
      SameRefl(h);
      PartialIsBest(h, cls, r.value);
    } else {
      NoneWaits(h, cls, g.cur, g.partial);
      r := NewSpan(g, cls);
      if r.None? {
        NoneIsLeft(h, cls);
        return;
      }
      OpenedIsBest(h, g.H(), cls, r.value);
      OpenedFound(h, g.H(), r.value, cls, g.cur, g.partial);
      OpenedFacts(h, g.H(), r.value, cls);
      ListSizes(g);
      UseOpened(g.spans[..], g.used, g.inUse, g.freeSpans, g.cur, g.partial, cls, r.value);
      g.cur := g.cur[cls := r];
      assert g.spans[..][r.value] == g.spans[r.value];
    }
  }

  lemma PartialIsBest(h: Heap, cls: nat, i: nat)
    requires HeapOk(h) && i < h.used && i < |h.spans| && h.spans[i].state == Small && h.spans[i].cls == cls && HasRoom(h.spans[i])
    ensures BestSpan(h, cls, i)
  {
    RoomMeans(h, cls, i);
    hide RoomIn, HasRoom, HeapOk;
  }

  lemma NoneIsLeft(h: Heap, cls: nat)
    requires HeapOk(h) && h.used == |h.spans| && (forall j :: !RoomIn(h, cls, j)) && forall j: nat :: j < h.used ==> h.spans[j].state != Free
    ensures NoSlot(h, cls)
  {
    hide RoomIn, HeapOk;
  }

  lemma OpenedIsBest(h: Heap, h': Heap, cls: nat, i: nat)
    requires (forall j :: !RoomIn(h, cls, j)) && Opened(h, h', i, cls)
    requires i == h.used ==> forall j: nat :: j < h.used ==> h.spans[j].state != Free
    ensures BestSpan(h, cls, i)
  {
    hide RoomIn, SmallSpan;
    if i == h.used {
      forall j
        ensures !FreeIn(h, j)
      {
      }
    } else {
      assert FreeIn(h, i);
    }
  }

  lemma OpenedFacts(h: Heap, h': Heap, i: nat, cls: nat)
    requires Sound(h) && Opened(h, h', i, cls)
    ensures SameObjects(h, h') && i < h'.used && i < |h'.spans| && h'.spans[i].state == Small && h'.spans[i].cls == cls && HasRoom(h'.spans[i])
  {
    OpenedObjects(h, h', i, cls);
    SmallState(h.spans[i], cls, i == h.used);
    SmallSpanOk(h.spans[i], cls, i == h.used);
    hide SameObjects, SmallSpan, Sound, SmallOk;
  }

  /** `gc_slot`: a zeroed slot of class `cls`, counted and paced like any allocation. */
  method GcSlot(g: Gc, cls: nat, roots: seq<Word>) returns (r: Option<Obj>, ghost mid: Heap)
    requires Valid(g) && cls < NUM_CLASSES
    modifies g, g.spans, g.mem
    ensures Began(old(g.H()), roots, mid)
    ensures r.Some? ==> Valid(g) && Grew(mid, g.H(), r.value) && Paced(g, CLASS_SIZE[cls])
    ensures r.Some? ==> ZeroAt(g.H().mem, Start(g.H(), r.value), Words(g.H(), r.value)) && Extent(g.H(), r.value) == CLASS_SIZE[cls] / 8
    ensures r.Some? ==> g.spans[r.value.span].state == Small
    ensures if r.Some? then BestSlot(mid, cls, r.value) else NoSlot(mid, cls)
  {
    hide FullHeap, SameSpans, RoomIn, FreeIn, BestSpan, NoSlot, TakenBelow, RoomListed;
    hide HeapOk, Quiet, ListsOk, SameObjects, AllocBytes, HasRoom, Sound, Grew, ZeroAt, Start, Words, Extent, Collected;
    mid := Charge(g, CLASS_SIZE[cls], roots);
    HeapParts(mid);
    SameRefl(mid);
    SpansRefl(mid.spans);
    ListSizes(g);
    var s := g.cur[cls];
    if s.Some? && HasRoom(g.spans[s.value]) {
      PartialIsBest(mid, cls, s.value);
    }
    while true
      invariant Owing(g, CLASS_SIZE[cls]) && Paced(g, CLASS_SIZE[cls]) && SameObjects(mid, g.H()) && |g.cur| == NUM_CLASSES && s == g.cur[cls]
      invariant s.Some? ==> s.value < g.used && s.value < g.spans.Length && g.spans[s.value].state == Small && g.spans[s.value].cls == cls
      invariant if s.Some? && HasRoom(g.spans[s.value]) then BestSpan(mid, cls, s.value)
                else g.used == mid.used && SameSpans(mid.spans, g.spans[..])
      decreases if s.Some? && s.value < g.spans.Length && HasRoom(g.spans[s.value]) then 0 else 1
    {
      ghost var h := g.H();
      if s.Some? {
        var k := TakeSlot(g, cls, s.value);
        if k.Some? {
          SameThenGrew(mid, h, g.H(), Obj(s.value, k.value));
          TakenBefore(mid, h, s.value, k.value);
          return Some(Obj(s.value, k.value)), mid;
        }
        SameTrans(mid, h, g.H());
        SpansTrans(mid.spans, h.spans, g.spans[..]);
      }
      ghost var h1 := g.H();
      SameShape(mid, h1);
      RoomSame(mid, h1, cls);
      s := NextSpan(g, cls);
      if s.None? {
        return None, mid;
      }
      SameTrans(mid, h1, g.H());
    }
  }

  lemma SameShape(a: Heap, b: Heap)
    requires SameObjects(a, b)
    ensures Shape(a) && Shape(b)
  {
  }

  lemma TakenBefore(a: Heap, b: Heap, i: nat, k: nat)
    requires SameObjects(a, b) && TakenBelow(b, i, k)
    ensures TakenBelow(a, i, k)
  {
    hide SpansOk, SameObject;
  }
}

/** Sweeping: what is not marked becomes free, and the lists and counts of spans are rebuilt. */
module GcSweep {
  import opened Wrappers
  import opened BitWords
  import opened BitTable
  import opened GcHeap
  import opened GcState

  // ---------------------------------------------------------------- counts over the span table

  /** The number of the first `n` spans that are not free. */
  function NonFree(spans: seq<Span>, n: nat): nat
    requires n <= |spans|
  {
    if n == 0 then 0 else NonFree(spans, n - 1) + if spans[n - 1].state == Free then 0 else 1
  }

  /** The bytes of `n` slots. */
  function SlotBytes(n: nat, elem: nat): nat {
    n * elem
  }

  /** The bytes that the allocated objects of a span take; a run is counted at its head. */
  function SpanBytes(s: Span): nat {
    match s.state
    case Small => if TableOk(s) then SlotBytes(Count(s.alloc, SLOTS), s.elem) else 0
    case Large => SPAN_SIZE * s.runLen
    case _ => 0
  }

  function AllocBytes(spans: seq<Span>, n: nat): nat
    requires n <= |spans|
  {
    if n == 0 then 0 else AllocBytes(spans, n - 1) + SpanBytes(spans[n - 1])
  }

  lemma {:induction false} NonFreeSame(a: seq<Span>, b: seq<Span>, n: nat)
    requires n <= |a| && n <= |b| && forall i :: 0 <= i < n ==> (a[i].state == Free <==> b[i].state == Free)
    ensures NonFree(a, n) == NonFree(b, n)
    decreases n
  {
    if n > 0 {
      NonFreeSame(a, b, n - 1);
    }
  }

  lemma {:induction false} NonFreeSet(spans: seq<Span>, i: nat, s: Span, n: nat)
    requires n <= |spans| && i < |spans|
    ensures NonFree(spans[i := s], n) + (if i < n && spans[i].state != Free then 1 else 0)
            == NonFree(spans, n) + (if i < n && s.state != Free then 1 else 0)
    decreases n
  {
    if n > 0 {
      NonFreeSet(spans, i, s, n - 1);
    }
  }

  lemma {:induction false} BytesSame(a: seq<Span>, b: seq<Span>, n: nat)
    requires n <= |a| && n <= |b| && forall i :: 0 <= i < n ==> SpanBytes(a[i]) == SpanBytes(b[i])
    ensures AllocBytes(a, n) == AllocBytes(b, n)
    decreases n
  {
    hide SpanBytes;
    if n > 0 {
      BytesSame(a, b, n - 1);
    }
  }

  lemma {:induction false} BytesSet(spans: seq<Span>, i: nat, s: Span, n: nat)
    requires n <= |spans| && i < |spans|
    ensures AllocBytes(spans[i := s], n) + (if i < n then SpanBytes(spans[i]) else 0)
            == AllocBytes(spans, n) + (if i < n then SpanBytes(s) else 0)
    decreases n
  {
    hide SpanBytes;
    if n > 0 {
      BytesSet(spans, i, s, n - 1);
    }
  }

  // ---------------------------------------------------------------- one span

  predicate Live(s: Span) {
    TableOk(s) && Has(s.mark, 0)
  }

  /** A small span whose slots are the marked ones. */
  ghost predicate SweptSmall(s: Span, t: Span) {
    && TableOk(s) && TableOk(t) && NoMarks(t)
    && (forall k: nat :: k < SLOTS ==> Has(t.alloc, k) == Has(s.mark, k))
    && t == s.(alloc := t.alloc, mark := t.mark, state := t.state, freeindex := t.freeindex, needzero := t.needzero)
    && if Count(s.mark, SLOTS) == 0 then t.state == Free else t.state == Small && t.freeindex == 0 && t.needzero
  }

  /** What becomes of span `i` of a table whose marks are set. */
  ghost predicate SweptTo(spans: seq<Span>, i: nat, t: Span)
    requires i < |spans|
  {
    var s := spans[i];
    match s.state
    case Free => t == s
    case Cont => t == if s.headIdx < |spans| && Live(spans[s.headIdx]) then s else s.(state := Free)
    case Large => if Live(s) then TableOk(t) && NoMarks(t) && t == s.(mark := t.mark) else t == s.(state := Free)
    case Small => SweptSmall(s, t)
  }

  /** Marks lie on allocated objects only. */
  ghost predicate MarksIn(s: Span) {
    && TableOk(s)
    && forall k: nat :: k < SLOTS && Has(s.mark, k) ==>
         (s.state == Small && k < s.nelems && Has(s.alloc, k)) || (s.state == Large && k == 0)
  }

  /** The copy of the marks over the slot map, one word at a time. */
  method CopyMarks(alloc: seq<bv64>, mark: seq<bv64>, nelems: nat) returns (a: seq<bv64>, m: seq<bv64>, n: nat)
    requires |alloc| == |mark| == 32 && nelems <= SLOTS
    requires forall k: nat :: nelems <= k < SLOTS ==> !Has(alloc, k) && !Has(mark, k)
    ensures |a| == |m| == 32 && n == Count(mark, SLOTS)
    ensures forall k: nat :: k < SLOTS ==> Has(a, k) == Has(mark, k) && !Has(m, k)
  {
    hide Bit, Has, PopBelow, Count;
    var nw := (nelems + 63) / 64;
    CountZero(mark);
    a, m, n := alloc, mark, 0;
    for w := 0 to nw
      invariant |a| == |m| == 32 && n == Count(mark, 64 * w)
      invariant forall v :: 0 <= v < 32 ==> a[v] == (if v < w then mark[v] else alloc[v]) && m[v] == (if v < w then 0 else mark[v])
    {
      CountWord(mark, w, 64);
      a := a[w := m[w]];
      n := n + PopCount(m[w]);
      m := m[w := 0];
    }
    CopyDone(alloc, mark, nelems, a, m, nw);
    CountTail(mark, 64 * nw, SLOTS) by {
      assert nelems <= 64 * nw;
    }
  }

  lemma CountZero(t: seq<bv64>)
    ensures Count(t, 0) == 0
  {
  }

  lemma CopyDone(alloc: seq<bv64>, mark: seq<bv64>, nelems: nat, a: seq<bv64>, m: seq<bv64>, nw: nat)
    requires |alloc| == |mark| == |a| == |m| == 32 && nelems <= 64 * nw <= SLOTS
    requires forall k: nat :: nelems <= k < SLOTS ==> !Has(alloc, k) && !Has(mark, k)
    requires forall v :: 0 <= v < 32 ==> a[v] == (if v < nw then mark[v] else alloc[v]) && m[v] == (if v < nw then 0 else mark[v])
    ensures forall k: nat :: k < SLOTS ==> Has(a, k) == Has(mark, k) && !Has(m, k)
  {
    hide Bit;
    forall k: nat | k < SLOTS
      ensures Has(a, k) == Has(mark, k) && !Has(m, k)
    {
      ZeroBit(k % 64);
      if k / 64 >= nw {
        assert !Has(alloc, k) && !Has(mark, k);
      }
    }
  }

  /** The sweep of one span of slots. */
  method SweepSmall(s: Span) returns (t: Span, n: nat)
    requires s.state == Small && SmallOk(s) && MarksIn(s)
    ensures SweptSmall(s, t) && n == Count(s.mark, SLOTS) && n <= s.nelems && SpanBytes(t) == SlotBytes(n, s.elem)
  {
    hide Has, Count, SlotBytes, SmallOk, MarksIn;
    SweepFacts(s);
    CountBound(s.mark, s.nelems);
    CountTail(s.mark, s.nelems, SLOTS);
    NoBytes(s.elem);
    var a, m;
    a, m, n := CopyMarks(s.alloc, s.mark, s.nelems);
    CountSame(s.mark, a, SLOTS);
    t := s.(alloc := a, mark := m);
    t := if n == 0 then t.(state := Free) else t.(freeindex := 0, needzero := true);
  }

  lemma NoBytes(elem: nat)
    ensures SlotBytes(0, elem) == 0
  {
  }

  lemma SweepFacts(s: Span)
    requires SmallOk(s) && MarksIn(s) && s.state == Small
    ensures s.nelems <= SLOTS && TableOk(s)
    ensures forall k: nat :: s.nelems <= k < SLOTS ==> !Has(s.alloc, k) && !Has(s.mark, k)
  {
    hide Has;
    NelemsSmall(s);
  }

  lemma CountBound(t: seq<bv64>, n: nat)
    requires n <= 64 * |t|
    ensures Count(t, n) <= n
  {
  }

  lemma NelemsSmall(s: Span)
    requires SmallOk(s)
    ensures s.nelems <= SLOTS && 0 < s.elem <= SPAN_SIZE && s.elem % 8 == 0
  {
    hide Has;
    ClassSizes(s.cls);
  }

  // ---------------------------------------------------------------- the table while it is being swept

  /** The large object that span `j` continues is dead and begins below `i`. */
  predicate DeadBelow(spans: seq<Span>, j: nat, i: nat)
    requires j < |spans|
  {
    var s := spans[j];
    s.state == Cont && s.headIdx < i && s.headIdx < |spans| && !Live(spans[s.headIdx])
  }

  /** The spans below `i` have been swept; later spans are as before, but for the runs of dead heads below `i`. */
  ghost predicate Sweeping(s0: seq<Span>, s: seq<Span>, i: nat) {
    && |s| == |s0| && i <= |s|
    && (forall j: nat :: j < i ==> SweptTo(s0, j, s[j]))
    && (forall j: nat :: i <= j < |s| ==> s[j] == if DeadBelow(s0, j, i) then s0[j].(state := Free) else s0[j])
  }

  /** The free spans below `i`, each once, in order. */
  ghost predicate FreeList(free: seq<nat>, spans: seq<Span>, i: nat) {
    && (forall x :: x in free ==> x < i && x < |spans| && spans[x].state == Free)
    && (forall j: nat :: j < i && j < |spans| && spans[j].state == Free ==> j in free)
    && (forall a, b :: 0 <= a < b < |free| ==> free[a] < free[b])
  }

  /** Some slot of the span is free. */
  ghost predicate HasRoom(s: Span) {
    TableOk(s) && s.nelems <= SLOTS && Count(s.alloc, s.nelems) < s.nelems
  }

  /** The spans below `i` of class `c` with a free slot, each once. */
  ghost predicate ClassList(list: seq<nat>, spans: seq<Span>, c: nat, i: nat) {
    && (forall x :: x in list ==> x < i && x < |spans| && spans[x].state == Small && spans[x].cls == c && HasRoom(spans[x]))
    && (forall j: nat :: j < i && j < |spans| && spans[j].state == Small && spans[j].cls == c && HasRoom(spans[j]) ==> j in list)
    && (forall a, b :: 0 <= a < b < |list| ==> list[a] != list[b])
  }

  ghost predicate ClassLists(partial: seq<seq<nat>>, spans: seq<Span>, i: nat) {
    |partial| == NUM_CLASSES && forall c: nat :: c < NUM_CLASSES ==> ClassList(partial[c], spans, c, i)
  }

  lemma FreeListNext(free: seq<nat>, s: seq<Span>, i: nat)
    requires i < |s| && FreeList(free, s, i)
    ensures if s[i].state == Free then FreeList(free + [i], s, i + 1) else FreeList(free, s, i + 1)
  {
    forall a | 0 <= a < |free|
      ensures free[a] < i
    {
      assert free[a] in free;
    }
    assert forall x :: x in free + [i] <==> x in free || x == i;
  }

  /** Spans from `i` on do not matter. */
  lemma FreeListFrame(free: seq<nat>, s: seq<Span>, s': seq<Span>, i: nat)
    requires FreeList(free, s, i) && |s'| == |s| && forall j: nat :: j < i && j < |s| ==> s'[j].state == s[j].state
    ensures FreeList(free, s', i)
  {
  }

  lemma ClassListsFrame(partial: seq<seq<nat>>, s: seq<Span>, s': seq<Span>, i: nat)
    requires ClassLists(partial, s, i) && |s'| == |s| && forall j: nat :: j < i && j < |s| ==> s'[j] == s[j]
    ensures ClassLists(partial, s', i)
  {
    hide HasRoom;
    forall c: nat | c < NUM_CLASSES
      ensures ClassList(partial[c], s', c, i)
    {
      assert ClassList(partial[c], s, c, i);
    }
  }

  lemma ClassListsSkip(partial: seq<seq<nat>>, s: seq<Span>, i: nat)
    requires i < |s| && ClassLists(partial, s, i) && (s[i].state == Small ==> !HasRoom(s[i]))
    ensures ClassLists(partial, s, i + 1)
  {
    hide HasRoom;
    forall c: nat | c < NUM_CLASSES
      ensures ClassList(partial[c], s, c, i + 1)
    {
      assert ClassList(partial[c], s, c, i);
    }
  }

  lemma ClassListsPush(partial: seq<seq<nat>>, s: seq<Span>, i: nat)
    requires i < |s| && ClassLists(partial, s, i) && s[i].state == Small && HasRoom(s[i]) && s[i].cls < NUM_CLASSES
    ensures ClassLists(partial[s[i].cls := [i] + partial[s[i].cls]], s, i + 1)
  {
    hide HasRoom;
    var d := s[i].cls;
    var after := partial[d := [i] + partial[d]];
    forall c: nat | c < NUM_CLASSES
      ensures ClassList(after[c], s, c, i + 1)
    {
      assert ClassList(partial[c], s, c, i);
    }
  }

  // ---------------------------------------------------------------- the sweep

  /** What a sweep of table `s0` has done below span `i`. */
  ghost predicate SweepState(g: Gc, s0: seq<Span>, i: nat, live: nat)
    reads g, g.spans
  {
    && Sweeping(s0, g.spans[..], i) && i <= g.used <= |s0| && FreeList(g.freeSpans, g.spans[..], i)
    && ClassLists(g.partial, g.spans[..], i) && g.inUse == NonFree(g.spans[..], g.used)
    && live == AllocBytes(g.spans[..], i)
  }

  /** A table whose marks may be set. */
  ghost predicate Sweepable(s0: seq<Span>, used: nat) {
    && SpansOk(s0, used) && forall i :: 0 <= i < |s0| ==> MarksIn(s0[i])
  }

  lemma SweepingAt(s0: seq<Span>, s: seq<Span>, i: nat, used: nat)
    requires Sweepable(s0, used) && Sweeping(s0, s, i) && i < used
    ensures |s| == |s0| && s[i] == (if DeadBelow(s0, i, i) then s0[i].(state := Free) else s0[i]) && MarksIn(s0[i])
    ensures SpanOk(s0, i, used) && used <= |s0|
    ensures s[i].state == Free || s[i].state == Cont <==> s0[i].state == Cont || s0[i].state == Free
    ensures s0[i].state == Cont || s0[i].state == Free ==> SweptTo(s0, i, s[i]) && Sweeping(s0, s, i + 1)
  {
    hide Has, SmallOk, LargeOk, SweptSmall, MarksIn, Live;
    if s0[i].state == Cont {
      assert SpanOk(s0, i, used);
    }
    forall j: nat | i + 1 <= j < |s|
      ensures s0[i].state == Cont || s0[i].state == Free ==> (DeadBelow(s0, j, i + 1) <==> DeadBelow(s0, j, i))
    {
      if s0[j].state == Cont {
        ContHead(s0, j, used);
      }
    }
  }

  /** The head of a continuation span is the head of a large object. */
  lemma ContHead(s0: seq<Span>, j: nat, used: nat)
    requires SpansOk(s0, used) && j < |s0| && s0[j].state == Cont
    ensures s0[j].headIdx < j && s0[s0[j].headIdx].state == Large && j < s0[j].headIdx + s0[s0[j].headIdx].runLen
  {
    hide SmallOk, LargeOk;
    assert SpanOk(s0, j, used);
  }

  lemma BytesNext(spans: seq<Span>, i: nat)
    requires i < |spans|
    ensures AllocBytes(spans, i + 1) == AllocBytes(spans, i) + SpanBytes(spans[i])
  {
  }

  /** A free span is listed; a continuation span was settled with its head. */
  method SweepIdle(g: Gc, i: nat, ghost s0: seq<Span>, ghost live: nat)
    requires Sweepable(s0, g.used) && SweepState(g, s0, i, live) && i < g.used
    requires g.spans[i].state == Free || g.spans[i].state == Cont
    modifies g`freeSpans
    ensures SweepState(g, s0, i + 1, live)
  {
    hide Sweepable, SweptTo, DeadBelow, FreeList, ClassLists, HasRoom, MarksIn, SpanOk, Has;
    SweepingAt(s0, g.spans[..], i, g.used);
    FreeListNext(g.freeSpans, g.spans[..], i);
    ClassListsSkip(g.partial, g.spans[..], i);
    BytesNext(g.spans[..], i);
    if g.spans[i].state == Free {
      g.freeSpans := g.freeSpans + [i];
    }
  }

  /** One span of the table gets its final value. */
  lemma SweepingSet(s0: seq<Span>, s: seq<Span>, i: nat, t: Span, used: nat)
    requires Sweepable(s0, used) && Sweeping(s0, s, i) && i < used && s0[i].state != Cont && SweptTo(s0, i, t)
    requires s0[i].state == Large ==> Live(s0[i])
    ensures Sweeping(s0, s[i := t], i + 1)
  {
    hide Has, SmallOk, LargeOk, SweptTo, MarksIn, Live;
    forall j: nat | i + 1 <= j < |s|
      ensures DeadBelow(s0, j, i + 1) <==> DeadBelow(s0, j, i)
    {
      if s0[j].state == Cont {
        ContHead(s0, j, used);
      }
    }
  }

  /** The marked large object keeps its spans. */
  method SweepLive(g: Gc, i: nat, ghost s0: seq<Span>, live: nat) returns (live': nat)
    requires Sweepable(s0, g.used) && SweepState(g, s0, i, live) && i < g.used
    requires g.spans[i].state == Large && Live(g.spans[i])
    modifies g.spans
    ensures SweepState(g, s0, i + 1, live')
  {
    hide Sweepable, DeadBelow, FreeList, ClassLists, HasRoom, SpanOk, Has, SweptSmall, AllocBytes, NonFree, NoMarks;
    SweepingAt(s0, g.spans[..], i, g.used);
    ghost var before := g.spans[..];
    var s := g.spans[i];
    var t := s.(mark := s.mark[0 := 0]);
    MarkCleared(s, t);
    g.spans[i] := t;
    assert g.spans[..] == before[i := t];
    live' := live + SPAN_SIZE * s.runLen;
    SweepingSet(s0, before, i, t, g.used);
    FreeListFrame(g.freeSpans, before, g.spans[..], i);
    FreeListNext(g.freeSpans, g.spans[..], i);
    ClassListsFrame(g.partial, before, g.spans[..], i);
    ClassListsSkip(g.partial, g.spans[..], i);
    NonFreeSame(before, g.spans[..], g.used);
    BytesSame(before, g.spans[..], i);
    BytesNext(g.spans[..], i);
  }

  lemma MarkCleared(s: Span, t: Span)
    requires MarksIn(s) && s.state == Large && t == s.(mark := s.mark[0 := 0])
    ensures TableOk(t) && NoMarks(t)
  {
    hide Bit;
    forall k: nat | k < SLOTS
      ensures !Has(t.mark, k)
    {
      ZeroBit(k % 64);
      if k / 64 > 0 {
        assert Has(t.mark, k) == Has(s.mark, k);
      }
    }
  }

  /** A span of slots keeps the marked ones. */
  method SweepSlots(g: Gc, i: nat, ghost s0: seq<Span>, live: nat) returns (live': nat)
    requires Sweepable(s0, g.used) && SweepState(g, s0, i, live) && i < g.used && g.spans[i].state == Small
    modifies g`freeSpans, g`partial, g`inUse, g.spans
    ensures SweepState(g, s0, i + 1, live')
  {
    hide Sweepable, DeadBelow, FreeList, ClassLists, HasRoom, Has, SweptSmall, AllocBytes, NonFree, NoMarks, SmallOk, MarksIn;
    hide SweptTo, SpanBytes;
    SweepingAt(s0, g.spans[..], i, g.used);
    ghost var before := g.spans[..];
    var s := g.spans[i];
    var t, n := SweepSmall(s);
    SweptIs(s0, i, t, n);
    g.spans[i] := t;
    assert g.spans[..] == before[i := t];
    SweepingSet(s0, before, i, t, g.used);
    FreeListFrame(g.freeSpans, before, g.spans[..], i);
    FreeListNext(g.freeSpans, g.spans[..], i);
    ClassListsFrame(g.partial, before, g.spans[..], i);
    NonFreeSet(before, i, t, g.used);
    BytesSame(before, g.spans[..], i);
    BytesNext(g.spans[..], i);
    live' := live;
    if n == 0 {
      g.inUse := g.inUse - 1;
      g.freeSpans := g.freeSpans + [i];
      ClassListsSkip(g.partial, g.spans[..], i);
    } else {
      live' := live + SlotBytes(n, s.elem);
      if n < s.nelems {
        ClassListsSize(g.partial, g.spans[..], i);
        ClassListsPush(g.partial, g.spans[..], i);
        g.partial := g.partial[s.cls := [i] + g.partial[s.cls]];
      } else {
        ClassListsSkip(g.partial, g.spans[..], i);
      }
    }
  }

  lemma ClassListsSize(partial: seq<seq<nat>>, spans: seq<Span>, i: nat)
    requires ClassLists(partial, spans, i)
    ensures |partial| == NUM_CLASSES
  {
  }

  lemma SweptIs(s0: seq<Span>, i: nat, t: Span, n: nat)
    requires i < |s0| && s0[i].state == Small && SmallOk(s0[i]) && SweptSmall(s0[i], t) && n == Count(s0[i].mark, SLOTS) <= s0[i].nelems
    requires MarksIn(s0[i])
    ensures SweptTo(s0, i, t) && (n == 0 ==> t.state == Free && SpanBytes(t) == 0)
    ensures n > 0 ==> t.state == Small && t.cls == s0[i].cls < NUM_CLASSES && t.nelems == s0[i].nelems
    ensures n > 0 ==> (HasRoom(t) <==> n < t.nelems) && SpanBytes(t) == SlotBytes(n, s0[i].elem)
  {
    hide Has, Count;
    var s := s0[i];
    NelemsSmall(s);
    CountSame(s.mark, t.alloc, SLOTS);
    CountTail(t.alloc, s.nelems, SLOTS);
  }

  /** The run of a large object, below which all is settled. */
  ghost predicate FreeingRun(s0: seq<Span>, s: seq<Span>, i: nat, k: nat) {
    && |s| == |s0| && i + k <= |s| && 1 <= k
    && (forall j: nat :: j < i ==> SweptTo(s0, j, s[j])) && s[i] == s0[i].(state := Free)
    && (forall j: nat :: i < j < i + k ==> s[j] == s0[j].(state := Free))
    && forall j: nat :: i + k <= j < |s| ==> s[j] == s0[j]
  }

  lemma BeginRun(s0: seq<Span>, s: seq<Span>, i: nat, used: nat)
    requires Sweepable(s0, used) && Sweeping(s0, s, i) && i < used && s0[i].state == Large
    ensures FreeingRun(s0, s[i := s0[i].(state := Free)], i, 1)
  {
    hide Has, SmallOk, LargeOk, SweptTo, MarksIn, Live;
    forall j: nat | i < j < |s|
      ensures !DeadBelow(s0, j, i)
    {
      if s0[j].state == Cont {
        ContHead(s0, j, used);
        RunsApart(s0, s0[j].headIdx, i, j, used);
      }
    }
  }

  /** No span lies in the run of two heads. */
  lemma RunsApart(s0: seq<Span>, a: nat, i: nat, j: nat, used: nat)
    requires Sweepable(s0, used) && i < used && s0[i].state == Large && i < j < |s0| && s0[j].state == Cont
    requires a == s0[j].headIdx && a < j && s0[a].state == Large && j < a + s0[a].runLen
    ensures a >= i
  {
    hide Has, SmallOk, SweptTo, MarksIn, Live;
    assert a < used;
    assert SpanOk(s0, a, used);
    assert RunOk(s0, a, s0[a].runLen);
  }

  lemma EndRun(s0: seq<Span>, s: seq<Span>, i: nat, used: nat)
    requires Sweepable(s0, used) && i < used && s0[i].state == Large && !Live(s0[i])
    requires FreeingRun(s0, s, i, s0[i].runLen)
    ensures Sweeping(s0, s, i + 1)
  {
    hide Has, SmallOk, SweptTo, MarksIn, Live;
    assert SpanOk(s0, i, used);
    assert SweptTo(s0, i, s[i]) by {
      SweptDead(s0, i);
    }
    forall j: nat | i + 1 <= j < |s|
      ensures s[j] == if DeadBelow(s0, j, i + 1) then s0[j].(state := Free) else s0[j]
    {
      if j < i + s0[i].runLen {
        assert s0[j].state == Cont && s0[j].headIdx == i;
      } else if s0[j].state == Cont {
        ContHead(s0, j, used);
        RunsApart(s0, s0[j].headIdx, i, j, used);
      }
    }
  }

  lemma SweptDead(s0: seq<Span>, i: nat)
    requires i < |s0| && s0[i].state == Large && !Live(s0[i])
    ensures SweptTo(s0, i, s0[i].(state := Free))
  {
    hide Live;
  }

  lemma NextInRun(s0: seq<Span>, s: seq<Span>, i: nat, k: nat, used: nat)
    requires Sweepable(s0, used) && i < used && s0[i].state == Large && FreeingRun(s0, s, i, k) && k < s0[i].runLen
    ensures i + k < |s| && i + s0[i].runLen <= used && s[i + k] == s0[i + k] && s0[i + k].state == Cont
    ensures FreeingRun(s0, s[i + k := s0[i + k].(state := Free)], i, k + 1)
  {
    hide Has, SmallOk, SweptTo, MarksIn, Live;
    assert SpanOk(s0, i, used);
    assert RunOk(s0, i, s0[i].runLen);
  }

  lemma RunLength(s0: seq<Span>, i: nat, used: nat)
    requires Sweepable(s0, used) && i < used && s0[i].state == Large
    ensures s0[i].runLen >= 2 && i + s0[i].runLen <= used <= |s0|
  {
    hide Has, SmallOk, MarksIn;
    assert SpanOk(s0, i, used);
  }

  /** The dead large object's spans become free; the later ones are listed when they are reached. */
  method SweepDead(g: Gc, i: nat, ghost s0: seq<Span>, ghost live: nat)
    requires Sweepable(s0, g.used) && SweepState(g, s0, i, live) && i < g.used
    requires g.spans[i].state == Large && !Live(g.spans[i])
    modifies g`freeSpans, g`inUse, g.spans
    ensures SweepState(g, s0, i + 1, live)
  {
    hide Sweepable, DeadBelow, FreeList, ClassLists, HasRoom, SpanOk, Has, SweptTo, AllocBytes, NonFree, Live, FreeingRun, Sweeping;
    SweepingAt(s0, g.spans[..], i, g.used);
    RunLength(s0, i, g.used);
    ghost var before := g.spans[..];
    var s := g.spans[i];
    var n := s.runLen;
    g.spans[i] := s.(state := Free);
    assert g.spans[..] == before[i := s.(state := Free)];
    BeginRun(s0, before, i, g.used);
    NonFreeSet(before, i, s.(state := Free), g.used);
    NonFreeRun(s0, g.spans[..], i, 1, g.used);
    g.inUse := g.inUse - n;
    for k := 1 to n
      invariant FreeingRun(s0, g.spans[..], i, k) && NonFree(g.spans[..], g.used) == g.inUse + (n - k)
      invariant g.freeSpans == old(g.freeSpans) && forall j: nat :: j < i ==> g.spans[j] == before[j]
    {
      ghost var now := g.spans[..];
      NextInRun(s0, now, i, k, g.used);
      var t := g.spans[i + k].(state := Free);
      NonFreeSet(now, i + k, t, g.used);
      g.spans[i + k] := t;
      assert g.spans[..] == now[i + k := t];
    }
    EndRun(s0, g.spans[..], i, g.used);
    FreeListFrame(g.freeSpans, before, g.spans[..], i);
    ClassListsFrame(g.partial, before, g.spans[..], i);
    SweepingAfter(s0, g.spans[..], i);
    FreeListNext(g.freeSpans, g.spans[..], i);
    ClassListsSkip(g.partial, g.spans[..], i);
    BytesSame(before, g.spans[..], i);
    BytesNext(g.spans[..], i);
    g.freeSpans := g.freeSpans + [i];
  }

  lemma SweepingAfter(s0: seq<Span>, s: seq<Span>, i: nat)
    requires Sweeping(s0, s, i + 1) && i < |s0| && s0[i].state == Large && !Live(s0[i])
    ensures i < |s| && s[i].state == Free && SpanBytes(s[i]) == 0
  {
    hide Live, SweptSmall, NoMarks;
    assert SweptTo(s0, i, s[i]);
  }

  /** The continuation spans of the run that are still counted. */
  lemma {:induction false} NonFreeRun(s0: seq<Span>, s: seq<Span>, i: nat, k: nat, used: nat)
    requires Sweepable(s0, used) && i < used && s0[i].state == Large && FreeingRun(s0, s, i, k) && k <= s0[i].runLen
    ensures NonFree(s, used) >= s0[i].runLen - k
    decreases s0[i].runLen - k
  {
    RunLength(s0, i, used);
    if k < s0[i].runLen {
      hide Sweepable, FreeingRun, NonFree;
      NextInRun(s0, s, i, k, used);
      var t := s0[i + k].(state := Free);
      NonFreeRun(s0, s[i + k := t], i, k + 1, used);
      NonFreeSet(s, i + k, t, used);
    }
  }

  lemma NothingSwept(s0: seq<Span>, used: nat, partial: seq<seq<nat>>)
    requires used <= |s0| && |partial| == NUM_CLASSES && forall c :: 0 <= c < NUM_CLASSES ==> partial[c] == []
    ensures Sweeping(s0, s0, 0) && FreeList([], s0, 0) && ClassLists(partial, s0, 0) && AllocBytes(s0, 0) == 0
  {
    hide HasRoom, SweptTo;
  }

  /** `sweep`: every span is settled, and the bytes of the survivors are counted. */
  method Sweep(g: Gc, ghost s0: seq<Span>) returns (live: nat)
    requires g.spans[..] == s0 && Sweepable(s0, g.used) && g.inUse == NonFree(s0, g.used)
    modifies g`freeSpans, g`partial, g`cur, g`inUse, g.spans
    ensures SweepState(g, s0, g.used, live) && |g.cur| == NUM_CLASSES && forall c :: 0 <= c < NUM_CLASSES ==> g.cur[c] == None
  {
    hide Sweepable, Sweeping, FreeList, ClassLists, NonFree, AllocBytes, Has;
    g.partial := seq(NUM_CLASSES, _ => []);
    g.cur := seq(NUM_CLASSES, _ => None);
    g.freeSpans := [];
    UsedIn(s0, g.used);
    NothingSwept(s0, g.used, g.partial);
    live := 0;
    for i := 0 to g.used
      invariant SweepState(g, s0, i, live)
      invariant |g.cur| == NUM_CLASSES && forall c :: 0 <= c < NUM_CLASSES ==> g.cur[c] == None
    {
      assert i < g.spans.Length by { SweepLength(s0, g.spans[..], i); }
      match g.spans[i].state {
        case Free => SweepIdle(g, i, s0, live);
        case Cont => SweepIdle(g, i, s0, live);
        case Large =>
          if Live(g.spans[i]) {
            live := SweepLive(g, i, s0, live);
          } else {
            SweepDead(g, i, s0, live);
          }
        case Small => live := SweepSlots(g, i, s0, live);
      }
    }
  }

  lemma UsedIn(s0: seq<Span>, used: nat)
    requires Sweepable(s0, used)
    ensures used <= |s0|
  {
    hide Has;
  }

  lemma SweepLength(s0: seq<Span>, s: seq<Span>, i: nat)
    requires Sweeping(s0, s, i)
    ensures |s| == |s0|
  {
    hide SweptTo, DeadBelow;
  }

  // ---------------------------------------------------------------- the swept heap

  /** The two objects are at the same place and of the same size. */
  ghost predicate SamePlace(h: Heap, h': Heap, o: Obj) {
    && o.span < |h.spans| && o.span < |h'.spans|
    && Start(h', o) == Start(h, o) && Words(h', o) == Words(h, o) && Extent(h', o) == Extent(h, o)
    && (Noscan(h', o) <==> Noscan(h, o))
  }

  lemma SweptSpan(s0: seq<Span>, s: seq<Span>, i: nat, used: nat)
    requires Sweepable(s0, used) && Sweeping(s0, s, used) && i < |s0|
    ensures |s| == |s0| && (i < used ==> SweptTo(s0, i, s[i])) && (i >= used ==> s[i] == s0[i] && s0[i].state == Free)
  {
    hide Has, SweptTo, SmallOk, LargeOk, MarksIn;
  }

  /** Exactly the marked objects are still allocated, at their places. */
  lemma SweptObjects(h: Heap, h': Heap, o: Obj)
    requires Shape(h) && Shape(h') && Sweepable(h.spans, h.used) && Sweeping(h.spans, h'.spans, h.used) && h' == h.(spans := h'.spans)
    ensures Allocated(h', o) <==> Allocated(h, o) && MarkedIn(h, o)
    ensures Allocated(h', o) ==> SamePlace(h, h', o)
  {
    if o.span < h.used {
      SweptSpan(h.spans, h'.spans, o.span, h.used);
      assert MarksIn(h.spans[o.span]);
      assert SpanOk(h.spans, o.span, h.used);
      hide Has, Sweeping, Sweepable, LargeOk;
      var s, t := h.spans[o.span], h'.spans[o.span];
      if s.state == Small {
        NelemsSmall(s);
        CountFull(s.mark, SLOTS);
      }
    }
  }

  lemma SweptSmallOk(s: Span, t: Span)
    requires SmallOk(s) && MarksIn(s) && s.state == Small && SweptSmall(s, t)
    ensures t.state == Small ==> SmallOk(t)
  {
    hide Has;
    NelemsSmall(s);
  }

  lemma SweptLargeOk(s0: seq<Span>, s: seq<Span>, i: nat, used: nat)
    requires Sweepable(s0, used) && Sweeping(s0, s, used) && i < used && s0[i].state == Large && Live(s0[i])
    ensures LargeOk(s, i, used)
  {
    RunLength(s0, i, used);
    assert SpanOk(s0, i, used);
    assert RunOk(s0, i, s0[i].runLen);
    SweptSpan(s0, s, i, used);
    hide Has, Sweepable, MarksIn, NoMarks, Sweeping;
    forall j: nat | i < j < i + s[i].runLen
      ensures s[j].state == Cont && s[j].headIdx == i
    {
      assert s0[j].state == Cont && s0[j].headIdx == i;
      SweptSpan(s0, s, j, used);
    }
  }

  lemma SweptContOk(s0: seq<Span>, s: seq<Span>, i: nat, used: nat)
    requires Sweepable(s0, used) && Sweeping(s0, s, used) && i < used && s0[i].state == Cont && s[i].state == Cont
    ensures ContOk(s, i)
  {
    ContHead(s0, i, used);
    SweptSpan(s0, s, i, used);
    SweptSpan(s0, s, s0[i].headIdx, used);
    hide Has, Sweepable, MarksIn, NoMarks, Sweeping;
  }

  /** The swept table is well formed and bears no marks. */
  lemma SweptSound(s0: seq<Span>, s: seq<Span>, used: nat)
    requires Sweepable(s0, used) && Sweeping(s0, s, used)
    ensures SpansOk(s, used) && MarksClear(s)
  {
    SweepLength(s0, s, used);
    UsedIn(s0, used);
    forall i: nat | i < used
      ensures SpanOk(s, i, used)
    {
      SweptSpanOk(s0, s, i, used);
    }
    forall i | 0 <= i < |s|
      ensures NoMarks(s[i]) && (i >= used ==> s[i].state == Free)
    {
      SweptNoMarks(s0, s, i, used);
      SweptSpan(s0, s, i, used);
    }
    hide Has, Sweepable, Sweeping, SpanOk, NoMarks;
  }

  lemma SweptSpanOk(s0: seq<Span>, s: seq<Span>, i: nat, used: nat)
    requires Sweepable(s0, used) && Sweeping(s0, s, used) && i < used && used <= |s| == |s0|
    ensures SpanOk(s, i, used)
  {
    SweptSpan(s0, s, i, used);
    assert SpanOk(s0, i, used) && MarksIn(s0[i]);
    match s0[i].state {
      case Small =>
        SweptSmallOk(s0[i], s[i]);
        hide SmallOk, Sweepable, Sweeping, MarksIn, Has;
      case Large =>
        if Live(s0[i]) {
          SweptLargeOk(s0, s, i, used);
        }
        hide SmallOk, LargeOk, Sweepable, Sweeping, MarksIn, Has;
      case Cont =>
        if s[i].state == Cont {
          SweptContOk(s0, s, i, used);
        }
        hide SmallOk, LargeOk, ContOk, Sweepable, Sweeping, MarksIn, Has;
      case Free =>
    }
  }

  lemma SweptNoMarks(s0: seq<Span>, s: seq<Span>, i: nat, used: nat)
    requires Sweepable(s0, used) && Sweeping(s0, s, used) && i < |s| == |s0|
    ensures NoMarks(s[i])
  {
    SweptSpan(s0, s, i, used);
    assert MarksIn(s0[i]);
    hide Has, Sweepable, Sweeping;
  }
}

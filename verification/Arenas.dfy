/** The chunked bump arenas of the runtime (crates/llvm_poc/runtime/ubel_rt.c) and the bump path that the emitter inlines
    (crates/llvm_poc/src/emit.rs). */
module Arenas {
  import opened Wrappers

  const DEFAULT_CHUNK: nat := 65536
  const CACHE_MAX: nat := 64

  /** A chunk and an arena are known by their addresses. */
  type Chunk = nat
  type Id = nat

  /** An arena's chunks, the one in use first, and the bump position and end in that one. */
  datatype Arena = Arena(chunks: seq<Chunk>, cur: nat, end: nat, chunkSize: nat, scannable: bool)

  /** What one allocation hands out: `size` bytes from position `at` of a chunk. */
  datatype Block = Block(chunk: Chunk, at: nat, size: nat)

  /** All arenas: the payload size of every chunk that is not freed, the bytes written in retired chunks, the cached
      chunks, the registry of scannable arenas, the count of live arenas, and what each arena has handed out. */
  datatype State = State(sizes: map<Chunk, nat>, used: map<Chunk, nat>, cache: seq<Chunk>, arenas: map<Id, Arena>,
                         scan: seq<Id>, live: nat, given: map<Id, seq<Block>>)

  // ---------------------------------------------------------------- what an arena has handed out

  /** The bytes of chunk `c` that the blocks take. */
  function Filled(blocks: seq<Block>, c: Chunk): nat {
    if blocks == [] then 0
    else
      var last := blocks[|blocks| - 1];
      Filled(blocks[..|blocks| - 1], c) + if last.chunk == c then last.size else 0
  }

  /** Every block begins where the blocks before it in its chunk end. */
  ghost predicate Stacked(blocks: seq<Block>) {
    forall k :: 0 <= k < |blocks| ==> blocks[k].at == Filled(blocks[..k], blocks[k].chunk) && blocks[k].size % 16 == 0
  }

  lemma {:induction false} FilledGrows(blocks: seq<Block>, c: Chunk, i: nat)
    requires i <= |blocks|
    ensures Filled(blocks[..i], c) <= Filled(blocks, c)
    decreases |blocks|
  {
    if i < |blocks| {
      FilledGrows(blocks[..|blocks| - 1], c, i);
      assert blocks[..|blocks| - 1][..i] == blocks[..i];
    } else {
      assert blocks[..i] == blocks;
    }
  }

  lemma FilledAt(blocks: seq<Block>, k: nat)
    requires k < |blocks|
    ensures Filled(blocks[..k + 1], blocks[k].chunk) == Filled(blocks[..k], blocks[k].chunk) + blocks[k].size
  {
    assert blocks[..k + 1][..k] == blocks[..k];
  }

  /** Blocks of one chunk do not overlap, and lie in the filled part of it. */
  lemma BlocksApart(blocks: seq<Block>, i: nat, j: nat)
    requires Stacked(blocks) && i < j < |blocks| && blocks[i].chunk == blocks[j].chunk
    ensures blocks[i].at + blocks[i].size <= blocks[j].at
    ensures blocks[j].at + blocks[j].size <= Filled(blocks, blocks[j].chunk)
  {
    hide Filled;
    FilledAt(blocks, i);
    FilledAt(blocks, j);
    FilledGrows(blocks[..j], blocks[i].chunk, i + 1);
    assert blocks[..j][..i + 1] == blocks[..i + 1];
    FilledGrows(blocks, blocks[j].chunk, j + 1);
  }

  lemma {:induction false} FilledAligned(blocks: seq<Block>, c: Chunk)
    requires forall k :: 0 <= k < |blocks| ==> blocks[k].size % 16 == 0
    ensures Filled(blocks, c) % 16 == 0
    decreases |blocks|
  {
    if blocks != [] {
      FilledAligned(blocks[..|blocks| - 1], c);
    }
  }

  ghost predicate Covers(b: Block, c: Chunk, p: nat) {
    b.chunk == c && b.at <= p < b.at + b.size
  }

  /** The blocks of a chunk leave no gap: exactly the filled bytes belong to one of them. */
  lemma {:induction false} BlocksTile(blocks: seq<Block>, c: Chunk, p: nat)
    requires Stacked(blocks)
    ensures p < Filled(blocks, c) <==> exists k :: 0 <= k < |blocks| && Covers(blocks[k], c, p)
    decreases |blocks|
  {
    hide Stacked;
    if blocks != [] {
      var n := |blocks| - 1;
      var front := blocks[..n];
      StackedFront(blocks);
      BlocksTile(front, c, p);
      CoveredFront(blocks, c, p);
    }
  }

  lemma CoveredFront(blocks: seq<Block>, c: Chunk, p: nat)
    requires blocks != []
    ensures var n := |blocks| - 1;
            (exists k :: 0 <= k < |blocks| && Covers(blocks[k], c, p)) <==>
              (exists k :: 0 <= k < n && Covers(blocks[..n][k], c, p)) || Covers(blocks[n], c, p)
  {
    hide Covers;
    var n := |blocks| - 1;
    if k :| 0 <= k < n && Covers(blocks[..n][k], c, p) {
      assert Covers(blocks[k], c, p);
    }
    if k :| 0 <= k < n && Covers(blocks[k], c, p) {
      assert Covers(blocks[..n][k], c, p);
    }
  }

  lemma StackedFront(blocks: seq<Block>)
    requires Stacked(blocks) && blocks != []
    ensures var n := |blocks| - 1;
            Stacked(blocks[..n]) && blocks[n].at == Filled(blocks[..n], blocks[n].chunk)
            && forall c :: Filled(blocks, c) == Filled(blocks[..n], c) + if blocks[n].chunk == c then blocks[n].size else 0
  {
    var front := blocks[..|blocks| - 1];
    forall k | 0 <= k < |front|
      ensures front[k].at == Filled(front[..k], front[k].chunk)
    {
      assert front[..k] == blocks[..k];
    }
  }

  // ---------------------------------------------------------------- the invariant

  /** How many bytes of chunk `c` the arena has handed out. */
  function Fill(a: Arena, used: map<Chunk, nat>, c: Chunk): nat {
    if a.chunks != [] && c == a.chunks[0] then a.cur else if c in used then used[c] else 0
  }

  ghost predicate Distinct(s: seq<nat>) {
    forall i, j :: 0 <= i < j < |s| ==> s[i] != s[j]
  }

  /** An arena has at least one chunk, and its blocks tile the filled part of each. */
  ghost predicate ArenaOk(sizes: map<Chunk, nat>, used: map<Chunk, nat>, a: Arena, blocks: seq<Block>) {
    && a.chunks != [] && Distinct(a.chunks) && Stacked(blocks)
    && (forall c :: c in a.chunks ==> c in sizes && Fill(a, used, c) == Filled(blocks, c) <= sizes[c])
    && (forall k :: 0 <= k < |blocks| ==> blocks[k].chunk in a.chunks)
    && a.chunks[0] in sizes && a.end == sizes[a.chunks[0]]
  }

  /** Chunks are used by one arena at most, or wait in the cache; none is lost. */
  ghost predicate ChunksOk(s: State) {
    && Distinct(s.cache) && |s.cache| <= CACHE_MAX
    && (forall c :: c in s.cache ==> c in s.sizes && s.sizes[c] == DEFAULT_CHUNK)
    && (forall i, c :: i in s.arenas && c in s.arenas[i].chunks ==> c !in s.cache)
    && (forall i, j, c :: i in s.arenas && j in s.arenas && c in s.arenas[i].chunks && c in s.arenas[j].chunks ==> i == j)
    && (forall c :: c in s.sizes && c !in s.cache ==> Owned(s, c))
  }

  ghost predicate Owned(s: State, c: Chunk) {
    exists i :: i in s.arenas && c in s.arenas[i].chunks
  }

  ghost predicate ScanOk(s: State) {
    Distinct(s.scan) && forall i :: i in s.scan <==> i in s.arenas && s.arenas[i].scannable
  }

  ghost predicate Ok(s: State) {
    && s.given.Keys == s.arenas.Keys && s.live == |s.arenas| && ChunksOk(s) && ScanOk(s)
    && forall i :: i in s.arenas ==> ArenaOk(s.sizes, s.used, s.arenas[i], s.given[i])
  }

  // ---------------------------------------------------------------- the operations as functions

  /** `arena_install_chunk`: a cached chunk, or `chunk` from the system. */
  function Take(s: State, payload: nat, chunk: Chunk): (State, Chunk) {
    if payload == DEFAULT_CHUNK && s.cache != [] then (s.(cache := s.cache[1..]), s.cache[0])
    else (s.(sizes := s.sizes[chunk := payload]), chunk)
  }

  /** `ubel_arena_create` and `ubel_arena_create_scan`; chunk size 0 asks for the default. */
  function Created(s: State, id: Id, chunkSize: nat, scannable: bool, chunk: Chunk): State {
    var size := if chunkSize > 0 then chunkSize else DEFAULT_CHUNK;
    var (t, c) := Take(s, size, chunk);
    t.(arenas := t.arenas[id := Arena([c], 0, size, size, scannable)], given := t.given[id := []],
       scan := if scannable then [id] + t.scan else t.scan, live := t.live + 1)
  }

  function GrowSize(a: Arena, size: nat): (n: nat)
    ensures n >= size
  {
    if size > a.chunkSize then (size + 15) / 16 * 16 else a.chunkSize
  }

  /** `ubel_arena_grow`: the chunk in use is retired, and the block begins a new one. */
  function Grown(s: State, id: Id, size: nat, chunk: Chunk): (State, Block)
    requires id in s.arenas && id in s.given && s.arenas[id].chunks != []
  {
    var a := s.arenas[id];
    var payload := GrowSize(a, size);
    var (t, c) := Take(s.(used := s.used[a.chunks[0] := a.cur]), payload, chunk);
    (t.(arenas := t.arenas[id := a.(chunks := [c] + a.chunks, cur := size, end := payload)],
        given := t.given[id := t.given[id] + [Block(c, 0, size)]]),
     Block(c, 0, size))
  }

  function Bumped(s: State, id: Id, size: nat): (State, Block)
    requires id in s.arenas && id in s.given && s.arenas[id].chunks != []
  {
    var a := s.arenas[id];
    var b := Block(a.chunks[0], a.cur, size);
    (s.(arenas := s.arenas[id := a.(cur := a.cur + size)], given := s.given[id := s.given[id] + [b]]), b)
  }

  /** `ubel_arena_bump`: the fast path when the block fits. */
  function Allocated(s: State, id: Id, size: nat, chunk: Chunk): (State, Block)
    requires id in s.arenas && id in s.given && s.arenas[id].chunks != []
  {
    if s.arenas[id].cur + size <= s.arenas[id].end then Bumped(s, id, size) else Grown(s, id, size, chunk)
  }

  /** What becomes of the chunks of a destroyed arena: cached if there is room and the size is right, else freed. */
  function Released(sizes: map<Chunk, nat>, cache: seq<Chunk>, chunks: seq<Chunk>): (map<Chunk, nat>, seq<Chunk>)
    decreases |chunks|
  {
    if chunks == [] then (sizes, cache)
    else
      var c := chunks[0];
      if c in sizes && sizes[c] == DEFAULT_CHUNK && |cache| < CACHE_MAX then Released(sizes, [c] + cache, chunks[1..])
      else Released(sizes - {c}, cache, chunks[1..])
  }

  function Without(s: seq<Id>, id: Id): seq<Id> {
    if s == [] then [] else if s[0] == id then s[1..] else [s[0]] + Without(s[1..], id)
  }

  /** `ubel_arena_destroy`. */
  function Destroyed(s: State, id: Id): State
    requires id in s.arenas && s.live > 0
  {
    var a := s.arenas[id];
    var (sizes, cache) := Released(s.sizes, s.cache, a.chunks);
    s.(sizes := sizes, cache := cache, arenas := s.arenas - {id}, given := s.given - {id},
       scan := if a.scannable then Without(s.scan, id) else s.scan, live := s.live - 1)
  }

  // ---------------------------------------------------------------- what the operations do, field by field

  /** `t` is `s` but for the entries of arena `id` and the tables of chunks. */
  ghost predicate OnlyArena(s: State, id: Id, t: State) {
    && id in t.arenas && id in t.given && t.arenas.Keys == s.arenas.Keys + {id} && t.given.Keys == s.given.Keys + {id}
    && (forall i :: i in s.arenas && i != id ==> t.arenas[i] == s.arenas[i])
    && forall i :: i in s.given && i != id ==> t.given[i] == s.given[i]
  }

  /** A chunk of `payload` bytes comes from the cache if it has the default size and one is there, else from the system. */
  ghost predicate GetsChunk(s: State, payload: nat, chunk: Chunk, t: State, c: Chunk) {
    if payload == DEFAULT_CHUNK && s.cache != [] then s.cache == [c] + t.cache && t.sizes == s.sizes
    else c == chunk && t.cache == s.cache && t.sizes == s.sizes[c := payload]
  }

  /** The new arena has one chunk of the size asked for, or of the default size, and has handed out nothing. */
  ghost predicate Opens(s: State, id: Id, asked: nat, scannable: bool, chunk: Chunk, t: State) {
    && OnlyArena(s, id, t) && t.live == s.live + 1 && t.used == s.used && t.given[id] == []
    && t.scan == (if scannable then [id] + s.scan else s.scan)
    && var a := t.arenas[id];
       && |a.chunks| == 1 && a.cur == 0 && a.end == a.chunkSize && a.scannable == scannable
       && (asked > 0 ==> a.chunkSize == asked) && (asked == 0 ==> a.chunkSize == DEFAULT_CHUNK)
       && GetsChunk(s, a.chunkSize, chunk, t, a.chunks[0])
  }

  /** A block that fits lies at the bump position of the chunk in use, and no chunk is touched. */
  ghost predicate Bumps(s: State, id: Id, size: nat, t: State, b: Block)
    requires id in s.arenas && id in s.given && s.arenas[id].chunks != []
  {
    var a := s.arenas[id];
    && OnlyArena(s, id, t) && t.sizes == s.sizes && t.used == s.used && t.cache == s.cache && t.scan == s.scan && t.live == s.live
    && b == Block(a.chunks[0], a.cur, size) && t.given[id] == s.given[id] + [b]
    && t.arenas[id] == Arena(a.chunks, a.cur + size, a.end, a.chunkSize, a.scannable)
  }

  /** A block that does not fit begins one new chunk, of the arena's chunk size or of the rounded request if that is more. */
  ghost predicate Grows(s: State, id: Id, size: nat, chunk: Chunk, t: State, b: Block)
    requires id in s.arenas && id in s.given && s.arenas[id].chunks != []
  {
    var a := s.arenas[id];
    && OnlyArena(s, id, t) && t.scan == s.scan && t.live == s.live && t.used == s.used[a.chunks[0] := a.cur]
    && b.at == 0 && b.size == size && t.given[id] == s.given[id] + [b]
    && t.arenas[id].chunks == [b.chunk] + a.chunks && t.arenas[id].cur == size
    && t.arenas[id].chunkSize == a.chunkSize && t.arenas[id].scannable == a.scannable
    && var payload := t.arenas[id].end;
       && (size <= a.chunkSize ==> payload == a.chunkSize)
       && (size > a.chunkSize ==> payload % 16 == 0 && size <= payload < size + 16)
       && GetsChunk(s, payload, chunk, t, b.chunk)
  }

  ghost predicate Answers(s: State, id: Id, size: nat, chunk: Chunk, t: State, b: Block)
    requires id in s.arenas && id in s.given && s.arenas[id].chunks != []
  {
    if s.arenas[id].cur + size <= s.arenas[id].end then Bumps(s, id, size, t, b) else Grows(s, id, size, chunk, t, b)
  }

  /** Which of the two ways an allocation takes, and what it gives. */
  lemma AllocatedAnswers(s: State, id: Id, size: nat, chunk: Chunk)
    requires id in s.arenas && id in s.given && s.arenas[id].chunks != []
    ensures var (t, b) := Allocated(s, id, size, chunk); Answers(s, id, size, chunk, t, b)
  {
    if s.arenas[id].cur + size > s.arenas[id].end {
      GrownGrows(s, id, size, chunk);
    } else {
      var (t, b) := Bumped(s, id, size);
      assert Bumps(s, id, size, t, b);
    }
  }

  lemma GrownGrows(s: State, id: Id, size: nat, chunk: Chunk)
    requires id in s.arenas && id in s.given && s.arenas[id].chunks != []
    ensures var (t, b) := Grown(s, id, size, chunk); Grows(s, id, size, chunk, t, b)
  {
    var a := s.arenas[id];
    var payload := GrowSize(a, size);
    var (t, c) := Take(s.(used := s.used[a.chunks[0] := a.cur]), payload, chunk);
    assert GetsChunk(s, payload, chunk, t, c);
    hide Take;
  }

  lemma CreatedOpens(s: State, id: Id, asked: nat, scannable: bool, chunk: Chunk)
    requires id !in s.arenas
    ensures Opens(s, id, asked, scannable, chunk, Created(s, id, asked, scannable, chunk))
  {
    hide Take, GetsChunk;
    var size := if asked > 0 then asked else DEFAULT_CHUNK;
    var (t, c) := Take(s, size, chunk);
    TakeGets(s, size, chunk);
    var u := Created(s, id, asked, scannable, chunk);
    assert u == t.(arenas := t.arenas[id := Arena([c], 0, size, size, scannable)], given := t.given[id := []],
                   scan := if scannable then [id] + t.scan else t.scan, live := t.live + 1);
    GetsSame(s, size, chunk, t, u, c);
  }

  lemma TakeGets(s: State, payload: nat, chunk: Chunk)
    ensures var (t, c) := Take(s, payload, chunk);
            GetsChunk(s, payload, chunk, t, c) && t == s.(sizes := t.sizes, cache := t.cache)
  {
  }

  lemma GetsSame(s: State, payload: nat, chunk: Chunk, t: State, u: State, c: Chunk)
    requires GetsChunk(s, payload, chunk, t, c) && u.sizes == t.sizes && u.cache == t.cache
    ensures GetsChunk(s, payload, chunk, u, c)
  {
  }

  /** The chunks of the default size, in order. */
  function Defaults(sizes: map<Chunk, nat>, chunks: seq<Chunk>): (r: seq<Chunk>)
    ensures |r| <= |chunks| && forall c :: c in r ==> c in chunks
  {
    if chunks == [] then []
    else (if chunks[0] in sizes && sizes[chunks[0]] == DEFAULT_CHUNK then [chunks[0]] else []) + Defaults(sizes, chunks[1..])
  }

  function Backwards(s: seq<Chunk>): (r: seq<Chunk>)
    ensures |r| == |s|
  {
    if s == [] then [] else Backwards(s[1..]) + [s[0]]
  }

  /** How many of the chunks of the default size the cache still has room for. */
  function Room(cache: seq<Chunk>, sizes: map<Chunk, nat>, chunks: seq<Chunk>): nat {
    var n, m := if |cache| < CACHE_MAX then CACHE_MAX - |cache| else 0, |Defaults(sizes, chunks)|;
    if n < m then n else m
  }

  /** The first chunks of the default size go to the front of the cache as long as there is room; all others are freed. */
  ghost predicate Recycles(sizes: map<Chunk, nat>, cache: seq<Chunk>, chunks: seq<Chunk>, sizes': map<Chunk, nat>, cache': seq<Chunk>) {
    var kept := Defaults(sizes, chunks)[..Room(cache, sizes, chunks)];
    && cache' == Backwards(kept) + cache
    && sizes' == sizes - set c | c in chunks && c !in kept
  }

  lemma {:induction false} DefaultsWithout(sizes: map<Chunk, nat>, c: Chunk, chunks: seq<Chunk>)
    requires c !in chunks
    ensures Defaults(sizes - {c}, chunks) == Defaults(sizes, chunks)
    decreases |chunks|
  {
    if chunks != [] {
      DefaultsWithout(sizes, c, chunks[1..]);
    }
  }

  /** A chunk that is kept. */
  lemma KeepStep(sizes: map<Chunk, nat>, cache: seq<Chunk>, c: Chunk, tail: seq<Chunk>, sizes': map<Chunk, nat>, cache': seq<Chunk>)
    requires Recycles(sizes, [c] + cache, tail, sizes', cache') && |cache| < CACHE_MAX && c in sizes && sizes[c] == DEFAULT_CHUNK && c !in tail
    ensures Recycles(sizes, cache, [c] + tail, sizes', cache')
  {
    var ds, m := Defaults(sizes, tail), Room([c] + cache, sizes, tail);
    KeptMore(sizes, cache, c, tail);
    hide Defaults, Room;
    assert ([c] + ds[..m])[1..] == ds[..m];
    assert Backwards([c] + ds[..m]) == Backwards(ds[..m]) + [c];
    hide Backwards;
    assert (set d | d in [c] + tail && d !in [c] + ds[..m]) == set d | d in tail && d !in ds[..m];
  }

  lemma KeptMore(sizes: map<Chunk, nat>, cache: seq<Chunk>, c: Chunk, tail: seq<Chunk>)
    requires |cache| < CACHE_MAX && c in sizes && sizes[c] == DEFAULT_CHUNK
    ensures var all := [c] + tail;
            Defaults(sizes, all)[..Room(cache, sizes, all)] == [c] + Defaults(sizes, tail)[..Room([c] + cache, sizes, tail)]
  {
    assert ([c] + tail)[1..] == tail;
  }

  /** A chunk that is freed. */
  lemma FreeStep(sizes: map<Chunk, nat>, cache: seq<Chunk>, c: Chunk, tail: seq<Chunk>, sizes': map<Chunk, nat>, cache': seq<Chunk>)
    requires Recycles(sizes - {c}, cache, tail, sizes', cache') && c !in tail
    requires |cache| == CACHE_MAX || !(c in sizes && sizes[c] == DEFAULT_CHUNK)
    ensures Recycles(sizes, cache, [c] + tail, sizes', cache')
  {
    KeptSame(sizes, cache, c, tail);
    hide Defaults, Room, Backwards;
    FreeBoth(sizes, c, tail, Defaults(sizes - {c}, tail)[..Room(cache, sizes - {c}, tail)]);
  }

  lemma KeptSame(sizes: map<Chunk, nat>, cache: seq<Chunk>, c: Chunk, tail: seq<Chunk>)
    requires c !in tail && (|cache| == CACHE_MAX || !(c in sizes && sizes[c] == DEFAULT_CHUNK))
    ensures var all := [c] + tail;
            Defaults(sizes, all)[..Room(cache, sizes, all)] == Defaults(sizes - {c}, tail)[..Room(cache, sizes - {c}, tail)]
    ensures c !in Defaults(sizes - {c}, tail)
  {
    DefaultsWithout(sizes, c, tail);
    assert ([c] + tail)[1..] == tail;
  }

  lemma FreeBoth(sizes: map<Chunk, nat>, c: Chunk, tail: seq<Chunk>, kept: seq<Chunk>)
    requires c !in kept
    ensures sizes - (set d | d in [c] + tail && d !in kept) == sizes - {c} - set d | d in tail && d !in kept
  {
  }

  lemma {:induction false} ReleasedRecycles(sizes: map<Chunk, nat>, cache: seq<Chunk>, chunks: seq<Chunk>)
    requires Distinct(chunks) && |cache| <= CACHE_MAX
    ensures var (sizes', cache') := Released(sizes, cache, chunks); Recycles(sizes, cache, chunks, sizes', cache')
    decreases |chunks|
  {
    hide Recycles, Distinct;
    if chunks == [] {
      NothingRecycled(sizes, cache);
    } else {
      var c, tail := chunks[0], chunks[1..];
      Tail(chunks);
      assert chunks == [c] + tail;
      if c in sizes && sizes[c] == DEFAULT_CHUNK && |cache| < CACHE_MAX {
        ReleasedRecycles(sizes, [c] + cache, tail);
        var (sizes', cache') := Released(sizes, [c] + cache, tail);
        KeepStep(sizes, cache, c, tail, sizes', cache');
      } else {
        ReleasedRecycles(sizes - {c}, cache, tail);
        var (sizes', cache') := Released(sizes - {c}, cache, tail);
        FreeStep(sizes, cache, c, tail, sizes', cache');
      }
    }
  }

  lemma NothingRecycled(sizes: map<Chunk, nat>, cache: seq<Chunk>)
    ensures Recycles(sizes, cache, [], sizes, cache)
  {
    assert Backwards([]) + cache == cache;
  }

  /** The arena is forgotten and its chunks are recycled. */
  ghost predicate Closes(s: State, id: Id, t: State)
    requires id in s.arenas
  {
    && t.arenas == s.arenas - {id} && t.given == s.given - {id} && t.live + 1 == s.live && t.used == s.used
    && Recycles(s.sizes, s.cache, s.arenas[id].chunks, t.sizes, t.cache)
    && if s.arenas[id].scannable then CutOut(s.scan, id, t.scan) else t.scan == s.scan
  }

  ghost predicate CutOut(s: seq<Id>, id: Id, t: seq<Id>) {
    exists k :: 0 <= k < |s| && s[k] == id && t == s[..k] + s[k + 1..]
  }

  lemma {:induction false} WithoutAt(s: seq<Id>, id: Id) returns (k: nat)
    requires id in s
    ensures k < |s| && s[k] == id && Without(s, id) == s[..k] + s[k + 1..]
    decreases |s|
  {
    if s[0] == id {
      k := 0;
    } else {
      var j := WithoutAt(s[1..], id);
      CutBehind(s, j);
      k := j + 1;
    }
  }

  lemma CutBehind(s: seq<Id>, j: nat)
    requires j + 1 < |s|
    ensures [s[0]] + (s[1..][..j] + s[1..][j + 1..]) == s[..j + 1] + s[j + 2..]
  {
  }

  lemma WithoutCuts(s: seq<Id>, id: Id)
    requires id in s
    ensures CutOut(s, id, Without(s, id))
  {
    var k := WithoutAt(s, id);
  }

  lemma DestroyedCloses(s: State, id: Id)
    requires id in s.arenas && s.live > 0 && Distinct(s.arenas[id].chunks) && |s.cache| <= CACHE_MAX && ScanOk(s)
    ensures Closes(s, id, Destroyed(s, id))
  {
    ReleasedRecycles(s.sizes, s.cache, s.arenas[id].chunks);
    if s.arenas[id].scannable {
      WithoutCuts(s.scan, id);
    }
    hide CutOut, Released, Recycles, Distinct, Without;
  }

  // ---------------------------------------------------------------- the operations keep the invariant

  lemma Tail(s: seq<nat>)
    requires Distinct(s) && s != []
    ensures Distinct(s[1..]) && s[0] !in s[1..] && forall d :: d in s <==> d == s[0] || d in s[1..]
  {
    assert s == [s[0]] + s[1..];
  }

  /** What taking a chunk gives: it is in no arena and not in the cache, and no other chunk is affected. */
  ghost predicate Fresh(s: State, payload: nat, t: State, c: Chunk) {
    && c in t.sizes && t.sizes[c] == payload && c !in t.cache && Distinct(t.cache) && |t.cache| <= CACHE_MAX
    && (forall i :: i in s.arenas ==> c !in s.arenas[i].chunks)
    && (forall d :: d in s.sizes ==> d in t.sizes && t.sizes[d] == s.sizes[d])
    && (forall d :: d in t.cache ==> d in s.cache)
    && (forall d :: d in t.sizes && d !in t.cache && d != c ==> Owned(s, d))
    && t == s.(sizes := t.sizes, cache := t.cache)
  }

  ghost predicate Held(s: State) {
    forall i, c :: i in s.arenas && c in s.arenas[i].chunks ==> c in s.sizes
  }

  lemma Taken(s: State, payload: nat, chunk: Chunk)
    requires ChunksOk(s) && chunk !in s.sizes && Held(s)
    ensures var (t, c) := Take(s, payload, chunk); Fresh(s, payload, t, c)
  {
    hide Owned;
    if payload == DEFAULT_CHUNK && s.cache != [] {
      Tail(s.cache);
      assert s.cache[0] in s.cache;
    }
    hide Distinct;
  }

  ghost predicate SameFor(sizes: map<Chunk, nat>, used: map<Chunk, nat>, sizes': map<Chunk, nat>, used': map<Chunk, nat>, a: Arena) {
    forall c :: c in a.chunks ==> (c in sizes ==> c in sizes' && sizes'[c] == sizes[c]) && (c in used' <==> c in used)
                                  && (c in used ==> used'[c] == used[c])
  }

  lemma ArenaFrame(sizes: map<Chunk, nat>, used: map<Chunk, nat>, sizes': map<Chunk, nat>, used': map<Chunk, nat>, a: Arena, blocks: seq<Block>)
    requires ArenaOk(sizes, used, a, blocks) && SameFor(sizes, used, sizes', used', a)
    ensures ArenaOk(sizes', used', a, blocks)
  {
    hide Filled, Stacked, Distinct;
    forall c | c in a.chunks
      ensures c in sizes' && Fill(a, used', c) == Filled(blocks, c) <= sizes'[c]
    {
    }
    assert a.chunks[0] in a.chunks;
  }

  /** A chunk that was taken becomes the first of arena `id`. */
  ghost predicate Installed(s: State, payload: nat, chunk: Chunk, id: Id, u: State) {
    var (t, c) := Take(s, payload, chunk);
    && u.sizes == t.sizes && u.cache == t.cache && id in u.arenas && u.arenas.Keys == s.arenas.Keys + {id}
    && u.arenas[id].chunks == [c] + (if id in s.arenas then s.arenas[id].chunks else [])
    && forall i :: i in s.arenas && i != id ==> i in u.arenas && u.arenas[i] == s.arenas[i]
  }

  lemma InstalledAt(s: State, payload: nat, chunk: Chunk, id: Id, u: State, c: Chunk, i: Id, d: Chunk)
    requires Installed(s, payload, chunk, id, u) && c == Take(s, payload, chunk).1 && i in u.arenas && d in u.arenas[i].chunks
    ensures (i == id && d == c) || (i in s.arenas && d in s.arenas[i].chunks)
  {
    hide Take;
  }

  lemma InstalledOwns(s: State, payload: nat, chunk: Chunk, id: Id, u: State, c: Chunk, d: Chunk)
    requires Installed(s, payload, chunk, id, u) && c == Take(s, payload, chunk).1 && (d == c || Owned(s, d))
    ensures Owned(u, d)
  {
    hide Take;
    if d == c {
      assert d in u.arenas[id].chunks;
    } else {
      var i :| i in s.arenas && d in s.arenas[i].chunks;
      assert d in u.arenas[i].chunks;
    }
  }

  lemma InstalledChunks(s: State, payload: nat, chunk: Chunk, id: Id, u: State)
    requires ChunksOk(s) && chunk !in s.sizes && Installed(s, payload, chunk, id, u) && Held(s)
    ensures ChunksOk(u)
  {
    hide Owned, Take, Held, Distinct;
    Taken(s, payload, chunk);
    var (t, c) := Take(s, payload, chunk);
    assert u.sizes == t.sizes && u.cache == t.cache && c !in u.cache;
    forall d | d in u.sizes && d !in u.cache
      ensures Owned(u, d)
    {
      InstalledOwns(s, payload, chunk, id, u, c, d);
    }
    forall i, d | i in u.arenas && d in u.arenas[i].chunks
      ensures d !in u.cache
    {
      InstalledAt(s, payload, chunk, id, u, c, i, d);
    }
    forall i, j, d | i in u.arenas && j in u.arenas && d in u.arenas[i].chunks && d in u.arenas[j].chunks
      ensures i == j
    {
      InstalledAt(s, payload, chunk, id, u, c, i, d);
      InstalledAt(s, payload, chunk, id, u, c, j, d);
    }
    hide Installed;
    CachedSizes(s, payload, t, c);
  }

  lemma CachedSizes(s: State, payload: nat, t: State, c: Chunk)
    requires ChunksOk(s) && Fresh(s, payload, t, c)
    ensures forall d :: d in t.cache ==> d in t.sizes && t.sizes[d] == DEFAULT_CHUNK
  {
    hide Owned, Distinct;
  }

  lemma ArenasHold(s: State)
    requires Ok(s)
    ensures Held(s)
    ensures forall i :: i in s.arenas ==> i in s.given && s.arenas[i].chunks != []
  {
    hide ChunksOk, ScanOk, Stacked, Distinct, Filled, Fill;
    forall i | i in s.arenas
      ensures i in s.given && s.arenas[i].chunks != []
      ensures forall c :: c in s.arenas[i].chunks ==> c in s.sizes
    {
      assert ArenaOk(s.sizes, s.used, s.arenas[i], s.given[i]);
    }
  }

  ghost predicate Retired(s: State, id: Id, u: State) {
    u.used == if id in s.arenas && s.arenas[id].chunks != [] then s.used[s.arenas[id].chunks[0] := s.arenas[id].cur] else s.used
  }

  lemma OthersSame(s: State, payload: nat, t: State, c: Chunk, id: Id, u: State, i: Id)
    requires ChunksOk(s) && Fresh(s, payload, t, c) && u.sizes == t.sizes && Retired(s, id, u) && i in s.arenas && i != id
    ensures SameFor(s.sizes, s.used, u.sizes, u.used, s.arenas[i])
  {
    hide Owned, Distinct;
    if id in s.arenas && s.arenas[id].chunks != [] {
      assert s.arenas[id].chunks[0] in s.arenas[id].chunks;
    }
  }

  /** The arenas that do not get the chunk are as they were. */
  lemma InstalledOthers(s: State, payload: nat, chunk: Chunk, id: Id, u: State, i: Id)
    requires Ok(s) && chunk !in s.sizes && Installed(s, payload, chunk, id, u) && Retired(s, id, u) && i in s.arenas && i != id && i in s.given
    ensures i in u.arenas && ArenaOk(u.sizes, u.used, u.arenas[i], s.given[i])
  {
    hide ArenaOk, ChunksOk, ScanOk, Take, SameFor, Retired, Held, Fresh;
    ArenasHold(s);
    var (t, c) := Take(s, payload, chunk);
    Taken(s, payload, chunk);
    OthersSame(s, payload, t, c, id, u, i);
    ArenaFrame(s.sizes, s.used, u.sizes, u.used, s.arenas[i], s.given[i]);
  }

  lemma NewArenaOk(s: State, payload: nat, t: State, c: Chunk, used: map<Chunk, nat>, chunkSize: nat, scannable: bool)
    requires Fresh(s, payload, t, c)
    ensures ArenaOk(t.sizes, used, Arena([c], 0, payload, chunkSize, scannable), [])
  {
  }

  lemma CreatedForm(s: State, id: Id, size: nat, scannable: bool, chunk: Chunk, t: State, c: Chunk, u: State)
    requires id !in s.arenas && size > 0 && u == Created(s, id, size, scannable, chunk)
    requires Take(s, size, chunk) == (t, c) && t == s.(sizes := t.sizes, cache := t.cache)
    ensures Installed(s, size, chunk, id, u) && Retired(s, id, u) && u.sizes == t.sizes
    ensures u.arenas == s.arenas[id := Arena([c], 0, size, size, scannable)] && u.given == s.given[id := []]
    ensures u.live == s.live + 1 && u.scan == if scannable then [id] + s.scan else s.scan
    ensures u.arenas.Keys == s.arenas.Keys + {id} && u.given.Keys == s.given.Keys + {id}
  {
    hide Take;
  }

  function ChunkSize(asked: nat): (size: nat)
    ensures size > 0
  {
    if asked > 0 then asked else DEFAULT_CHUNK
  }

  lemma CreateOk(s: State, id: Id, chunkSize: nat, scannable: bool, chunk: Chunk)
    requires Ok(s) && id !in s.arenas && chunk !in s.sizes
    ensures Ok(Created(s, id, chunkSize, scannable, chunk))
    ensures Opens(s, id, chunkSize, scannable, chunk, Created(s, id, chunkSize, scannable, chunk))
  {
    hide Ok, Opens, Created;
    CreatedOpens(s, id, chunkSize, scannable, chunk);
    CreatedDefault(s, id, chunkSize, scannable, chunk);
    CreateSized(s, id, ChunkSize(chunkSize), scannable, chunk);
  }

  lemma CreatedDefault(s: State, id: Id, chunkSize: nat, scannable: bool, chunk: Chunk)
    ensures Created(s, id, chunkSize, scannable, chunk) == Created(s, id, ChunkSize(chunkSize), scannable, chunk)
  {
    hide Take;
  }

  lemma CreateSized(s: State, id: Id, size: nat, scannable: bool, chunk: Chunk)
    requires Ok(s) && id !in s.arenas && chunk !in s.sizes && size > 0
    ensures Ok(Created(s, id, size, scannable, chunk))
  {
    hide ArenaOk, ChunksOk, ScanOk, Take, SameFor, Held, Fresh, Ok, Created, Installed, Retired, Owned;
    OkSplit(s);
    ArenasHold(s);
    var u := Created(s, id, size, scannable, chunk);
    var (t, c) := Take(s, size, chunk);
    Taken(s, size, chunk);
    FreshKeeps(s, size, t, c);
    CreatedForm(s, id, size, scannable, chunk, t, c, u);
    InstalledChunks(s, size, chunk, id, u);
    CreatedScan(s, id, u);
    NewArenaOk(s, size, t, c, u.used, size, scannable);
    forall i | i in u.arenas
      ensures ArenaOk(u.sizes, u.used, u.arenas[i], u.given[i])
    {
      if i != id {
        InstalledOthers(s, size, chunk, id, u, i);
      }
    }
    KeysGrow(s.arenas, u.arenas, id);
    OkParts(u);
  }

  lemma OkSplit(s: State)
    requires Ok(s)
    ensures ChunksOk(s) && ScanOk(s) && s.given.Keys == s.arenas.Keys && s.live == |s.arenas|
  {
    hide ChunksOk, ScanOk, ArenaOk;
  }

  lemma FreshKeeps(s: State, payload: nat, t: State, c: Chunk)
    requires Fresh(s, payload, t, c)
    ensures t == s.(sizes := t.sizes, cache := t.cache)
  {
  }

  lemma KeysGrow<T>(m: map<Id, T>, n: map<Id, T>, id: Id)
    requires id !in m && n.Keys == m.Keys + {id}
    ensures |n| == |m| + 1
  {
    assert |n.Keys| == |n| && |m.Keys| == |m|;
  }

  lemma CreatedScan(s: State, id: Id, u: State)
    requires ScanOk(s) && id !in s.arenas && id in u.arenas && u.scan == (if u.arenas[id].scannable then [id] + s.scan else s.scan)
    requires u.arenas.Keys == s.arenas.Keys + {id} && forall i :: i in s.arenas ==> u.arenas[i] == s.arenas[i]
    ensures ScanOk(u)
  {
    assert id !in s.scan;
    forall i
      ensures i in u.scan <==> i in u.arenas && u.arenas[i].scannable
    {
    }
  }

  lemma {:induction false} FilledNone(blocks: seq<Block>, c: Chunk)
    requires forall k :: 0 <= k < |blocks| ==> blocks[k].chunk != c
    ensures Filled(blocks, c) == 0
    decreases |blocks|
  {
    if blocks != [] {
      FilledNone(blocks[..|blocks| - 1], c);
    }
  }

  lemma Pushed(blocks: seq<Block>, b: Block)
    requires Stacked(blocks) && b.at == Filled(blocks, b.chunk) && b.size % 16 == 0
    ensures Stacked(blocks + [b])
    ensures forall c :: Filled(blocks + [b], c) == Filled(blocks, c) + if c == b.chunk then b.size else 0
  {
    var more := blocks + [b];
    assert more[..|blocks|] == blocks;
    forall k | 0 <= k < |more|
      ensures more[k].at == Filled(more[..k], more[k].chunk)
    {
      if k < |blocks| {
        assert more[..k] == blocks[..k];
      }
    }
  }

  lemma GrownArena(sizes: map<Chunk, nat>, used: map<Chunk, nat>, sizes': map<Chunk, nat>, a: Arena, blocks: seq<Block>, c: Chunk,
                   payload: nat, size: nat)
    requires ArenaOk(sizes, used, a, blocks) && c !in a.chunks && c in sizes' && sizes'[c] == payload && size <= payload && size % 16 == 0
    requires forall d :: d in a.chunks ==> d in sizes' && d in sizes && sizes'[d] == sizes[d]
    ensures ArenaOk(sizes', used[a.chunks[0] := a.cur], a.(chunks := [c] + a.chunks, cur := size, end := payload), blocks + [Block(c, 0, size)])
  {
    var b := Block(c, 0, size);
    FilledNone(blocks, c);
    Pushed(blocks, b);
    Cons(c, a.chunks);
    hide Filled, Stacked, Distinct;
    forall d | d in [c] + a.chunks
      ensures d in sizes' && Fill(a.(chunks := [c] + a.chunks, cur := size, end := payload), used[a.chunks[0] := a.cur], d) == Filled(blocks + [b], d) <= sizes'[d]
    {
      RetiredFill(a, used, c, payload, size, d);
    }
    hide Fill;
  }

  lemma RetiredFill(a: Arena, used: map<Chunk, nat>, c: Chunk, payload: nat, size: nat, d: Chunk)
    requires a.chunks != [] && c !in a.chunks && (d == c || d in a.chunks)
    ensures Fill(a.(chunks := [c] + a.chunks, cur := size, end := payload), used[a.chunks[0] := a.cur], d) == if d == c then size else Fill(a, used, d)
  {
  }

  lemma SameScan(s: State, id: Id, u: State)
    requires ScanOk(s) && id in s.arenas && u.scan == s.scan && u.arenas.Keys == s.arenas.Keys
    requires u.arenas[id].scannable == s.arenas[id].scannable && forall i :: i in s.arenas && i != id ==> u.arenas[i] == s.arenas[i]
    ensures ScanOk(u)
  {
  }

  lemma ArenaOf(s: State, id: Id)
    requires Ok(s) && id in s.arenas
    ensures id in s.given && ArenaOk(s.sizes, s.used, s.arenas[id], s.given[id])
    ensures ChunksOk(s) && ScanOk(s) && s.given.Keys == s.arenas.Keys && s.live == |s.arenas|
  {
    hide ChunksOk, ScanOk, ArenaOk;
  }

  lemma GrowOk(s: State, id: Id, size: nat, chunk: Chunk)
    requires Ok(s) && id in s.arenas && id in s.given && s.arenas[id].chunks != [] && chunk !in s.sizes && size % 16 == 0
    ensures Ok(Grown(s, id, size, chunk).0)
  {
    hide ArenaOk, ChunksOk, ScanOk, Take, SameFor, Held, Fresh, GrowSize, Ok;
    ArenaOf(s, id);
    ArenasHold(s);
    var a := s.arenas[id];
    var payload := GrowSize(a, size);
    var (u, b) := Grown(s, id, size, chunk);
    var (t, c) := Take(s, payload, chunk);
    TakeUsed(s, payload, chunk, s.used[a.chunks[0] := a.cur]);
    Taken(s, payload, chunk);
    FreshKeeps(s, payload, t, c);
    assert Installed(s, payload, chunk, id, u);
    InstalledChunks(s, payload, chunk, id, u);
    SameScan(s, id, u);
    FreshSizes(s, payload, t, c, id);
    GrownArena(s.sizes, s.used, u.sizes, a, s.given[id], c, payload, size);
    forall i | i in u.arenas
      ensures ArenaOk(u.sizes, u.used, u.arenas[i], u.given[i])
    {
      if i != id {
        ArenaOf(s, i);
        InstalledOthers(s, payload, chunk, id, u, i);
      }
    }
    assert |u.arenas| == |s.arenas| by {
      assert |u.arenas.Keys| == |u.arenas| && |s.arenas.Keys| == |s.arenas|;
      assert u.arenas.Keys == s.arenas.Keys;
    }
    OkParts(u);
  }

  lemma OkParts(s: State)
    requires s.given.Keys == s.arenas.Keys && s.live == |s.arenas| && ChunksOk(s) && ScanOk(s)
    requires forall i :: i in s.arenas ==> ArenaOk(s.sizes, s.used, s.arenas[i], s.given[i])
    ensures Ok(s)
  {
    hide ChunksOk, ScanOk, ArenaOk;
  }

  lemma TakeUsed(s: State, payload: nat, chunk: Chunk, used: map<Chunk, nat>)
    ensures var (t, c) := Take(s, payload, chunk); Take(s.(used := used), payload, chunk) == (t.(used := used), c)
  {
  }

  lemma FreshSizes(s: State, payload: nat, t: State, c: Chunk, id: Id)
    requires Fresh(s, payload, t, c) && Held(s) && id in s.arenas
    ensures c !in s.arenas[id].chunks && c in t.sizes && t.sizes[c] == payload
    ensures forall d :: d in s.arenas[id].chunks ==> d in s.sizes && d in t.sizes && t.sizes[d] == s.sizes[d]
  {
    hide Owned, Distinct;
  }

  lemma BumpedArena(sizes: map<Chunk, nat>, used: map<Chunk, nat>, a: Arena, blocks: seq<Block>, size: nat)
    requires ArenaOk(sizes, used, a, blocks) && size % 16 == 0 && a.cur + size <= a.end
    ensures ArenaOk(sizes, used, a.(cur := a.cur + size), blocks + [Block(a.chunks[0], a.cur, size)])
  {
    var b := Block(a.chunks[0], a.cur, size);
    assert a.chunks[0] in a.chunks;
    Pushed(blocks, b);
    hide Filled, Stacked;
  }

  lemma BumpOk(s: State, id: Id, size: nat)
    requires Ok(s) && id in s.arenas && id in s.given && s.arenas[id].chunks != [] && size % 16 == 0
    requires s.arenas[id].cur + size <= s.arenas[id].end
    ensures Ok(Bumped(s, id, size).0)
  {
    hide ArenaOk, ScanOk, Ok, ChunksOk;
    ArenaOf(s, id);
    var u := Bumped(s, id, size).0;
    BumpedArena(s.sizes, s.used, s.arenas[id], s.given[id], size);
    SameScan(s, id, u);
    SameChunks(s, u);
    forall i | i in u.arenas
      ensures ArenaOk(u.sizes, u.used, u.arenas[i], u.given[i])
    {
      if i != id {
        ArenaOf(s, i);
      }
    }
    assert |u.arenas| == |s.arenas| by {
      assert |u.arenas.Keys| == |u.arenas| && |s.arenas.Keys| == |s.arenas|;
      assert u.arenas.Keys == s.arenas.Keys;
    }
    OkParts(u);
  }

  lemma SameChunks(s: State, u: State)
    requires ChunksOk(s) && u.cache == s.cache && u.sizes == s.sizes && u.arenas.Keys == s.arenas.Keys
    requires forall i :: i in s.arenas ==> u.arenas[i].chunks == s.arenas[i].chunks
    ensures ChunksOk(u)
  {
    hide Distinct;
    forall c | c in u.sizes && c !in u.cache
      ensures Owned(u, c)
    {
      var i :| i in s.arenas && c in s.arenas[i].chunks;
      assert c in u.arenas[i].chunks;
    }
  }

  /** A block of a whole number of 16 bytes is handed out without disturbing the rest. */
  lemma AllocateOk(s: State, id: Id, size: nat, chunk: Chunk)
    requires Ok(s) && id in s.arenas && id in s.given && s.arenas[id].chunks != [] && chunk !in s.sizes && size % 16 == 0
    ensures var (u, b) := Allocated(s, id, size, chunk); Ok(u) && u.given == s.given[id := s.given[id] + [b]] && b.size == size
    ensures var (u, b) := Allocated(s, id, size, chunk); Answers(s, id, size, chunk, u, b)
  {
    hide Ok, Answers;
    AllocatedAnswers(s, id, size, chunk);
    if s.arenas[id].cur + size <= s.arenas[id].end {
      BumpOk(s, id, size);
    } else {
      GrowOk(s, id, size, chunk);
    }
  }

  // ---------------------------------------------------------------- destroying

  ghost predicate AllDefault(sizes: map<Chunk, nat>, cache: seq<Chunk>) {
    Distinct(cache) && |cache| <= CACHE_MAX && forall c :: c in cache ==> c in sizes && sizes[c] == DEFAULT_CHUNK
  }

  /** Every chunk of the arena is cached or freed; no other chunk is touched. */
  lemma {:induction false} ReleaseChunks(sizes: map<Chunk, nat>, cache: seq<Chunk>, chunks: seq<Chunk>)
    requires AllDefault(sizes, cache) && Distinct(chunks) && forall c :: c in chunks ==> c in sizes && c !in cache
    ensures var (sizes', cache') := Released(sizes, cache, chunks);
            && AllDefault(sizes', cache') && (forall c :: c in cache' ==> c in cache || c in chunks)
            && (forall c :: c in sizes' <==> c in sizes && (c in chunks ==> c in cache'))
            && (forall c :: c in sizes' ==> sizes'[c] == sizes[c]) && forall c :: c in cache ==> c in cache'
    decreases |chunks|
  {
    if chunks != [] {
      var c, tail := chunks[0], chunks[1..];
      Tail(chunks);
      if sizes[c] == DEFAULT_CHUNK && |cache| < CACHE_MAX {
        Cons(c, cache);
        hide Distinct;
        ReleaseChunks(sizes, [c] + cache, tail);
        assert c in [c] + cache;
      } else {
        hide Distinct;
        ReleaseChunks(sizes - {c}, cache, tail);
      }
    }
  }

  lemma Cons(c: nat, s: seq<nat>)
    requires Distinct(s) && c !in s
    ensures Distinct([c] + s) && forall d :: d in [c] + s <==> d == c || d in s
  {
  }

  lemma {:induction false} WithoutOne(s: seq<Id>, id: Id)
    requires Distinct(s)
    ensures Distinct(Without(s, id)) && forall i :: i in Without(s, id) <==> i in s && i != id
    decreases |s|
  {
    if s != [] {
      Tail(s);
      WithoutOne(s[1..], id);
      if s[0] != id {
        Cons(s[0], Without(s[1..], id));
      }
    }
  }

  lemma DestroyedSizes(s: State, id: Id, u: State)
    requires ChunksOk(s) && Held(s) && id in s.arenas && s.live > 0 && u == Destroyed(s, id) && Distinct(s.arenas[id].chunks)
    ensures AllDefault(u.sizes, u.cache) && (forall c :: c in u.cache ==> c in s.cache || c in s.arenas[id].chunks)
    ensures forall c :: c in u.sizes <==> c in s.sizes && (c in s.arenas[id].chunks ==> c in u.cache)
    ensures (forall c :: c in u.sizes ==> u.sizes[c] == s.sizes[c]) && forall c :: c in s.cache ==> c in u.cache
  {
    hide Released, Distinct, Owned;
    var chunks := s.arenas[id].chunks;
    assert (forall c :: c in chunks ==> c in s.sizes && c !in s.cache) && AllDefault(s.sizes, s.cache);
    ReleaseChunks(s.sizes, s.cache, chunks);
  }

  lemma DestroyedChunks(s: State, id: Id, u: State)
    requires ChunksOk(s) && Held(s) && id in s.arenas && s.live > 0 && u == Destroyed(s, id) && Distinct(s.arenas[id].chunks)
    ensures ChunksOk(u)
  {
    hide Released, Distinct, Owned;
    DestroyedSizes(s, id, u);
    forall c | c in u.sizes && c !in u.cache
      ensures Owned(u, c)
    {
      assert Owned(s, c);
      OwnedStill(s, id, u, c);
    }
    forall i, c | i in u.arenas && c in u.arenas[i].chunks
      ensures c !in u.cache
    {
      assert i in s.arenas && c in s.arenas[i].chunks;
    }
  }

  lemma DestroyedFrame(s: State, id: Id, u: State, i: Id)
    requires ChunksOk(s) && Held(s) && id in s.arenas && s.live > 0 && u == Destroyed(s, id) && Distinct(s.arenas[id].chunks)
    requires i in u.arenas
    ensures i in s.arenas && i != id && SameFor(s.sizes, s.used, u.sizes, u.used, s.arenas[i])
  {
    hide Released, Distinct, Owned;
    DestroyedSizes(s, id, u);
  }

  lemma OwnedStill(s: State, id: Id, u: State, c: Chunk)
    requires Owned(s, c) && id in s.arenas && c !in s.arenas[id].chunks && u.arenas == s.arenas - {id}
    ensures Owned(u, c)
  {
    var i :| i in s.arenas && c in s.arenas[i].chunks;
    assert i in u.arenas && c in u.arenas[i].chunks;
  }

  lemma DestroyOk(s: State, id: Id)
    requires Ok(s) && id in s.arenas
    ensures s.live > 0 && Ok(Destroyed(s, id)) && Closes(s, id, Destroyed(s, id))
  {
    hide Closes;
    DestroyKeeps(s, id);
    DestroyAsked(s, id);
  }

  lemma DestroyAsked(s: State, id: Id)
    requires Ok(s) && id in s.arenas && s.live > 0
    ensures Closes(s, id, Destroyed(s, id))
  {
    hide Closes, Filled, Stacked, Fill, Owned;
    assert id in s.given && ArenaOk(s.sizes, s.used, s.arenas[id], s.given[id]);
    DestroyedCloses(s, id);
  }

  lemma DestroyKeeps(s: State, id: Id)
    requires Ok(s) && id in s.arenas
    ensures s.live > 0 && Ok(Destroyed(s, id))
  {
    hide ArenaOk, ScanOk, Ok, ChunksOk, Held, SameFor, Released;
    ArenaOf(s, id);
    ArenasHold(s);
    assert s.live > 0 by {
      assert |s.arenas.Keys| == |s.arenas| && id in s.arenas.Keys;
    }
    var u := Destroyed(s, id);
    ArenaDistinct(s, id);
    DestroyedChunks(s, id, u);
    DestroyedScan(s, id, u);
    forall i | i in u.arenas
      ensures ArenaOk(u.sizes, u.used, u.arenas[i], u.given[i])
    {
      DestroyedFrame(s, id, u, i);
      ArenaOf(s, i);
      ArenaFrame(s.sizes, s.used, u.sizes, u.used, s.arenas[i], s.given[i]);
    }
    assert u.arenas.Keys == s.arenas.Keys - {id};
    KeysGrow(u.arenas, s.arenas, id);
    OkParts(u);
  }

  lemma ArenaDistinct(s: State, id: Id)
    requires id in s.arenas && id in s.given && ArenaOk(s.sizes, s.used, s.arenas[id], s.given[id])
    ensures Distinct(s.arenas[id].chunks)
  {
  }

  lemma DestroyedScan(s: State, id: Id, u: State)
    requires ScanOk(s) && id in s.arenas && s.live > 0 && u == Destroyed(s, id)
    ensures ScanOk(u)
  {
    WithoutOne(s.scan, id);
    hide Released, Without, Distinct;
  }
}

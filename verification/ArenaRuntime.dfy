/** Arenas as the program and the collector see them: the blocks handed out, the words scanned, and the runtime calls
    (crates/llvm_poc/runtime/ubel_rt.c). */
module ArenaRuntime {
  import opened Arenas

  // ---------------------------------------------------------------- what the invariant gives

  ghost predicate IsBlock(s: State, i: Id, k: nat) {
    i in s.arenas && i in s.given && k < |s.given[i]|
  }

  lemma StackedIn(blocks: seq<Block>, k: nat)
    requires Stacked(blocks) && k < |blocks|
    ensures blocks[k].at % 16 == 0 && blocks[k].size % 16 == 0 && blocks[k].at + blocks[k].size <= Filled(blocks, blocks[k].chunk)
  {
    hide Filled;
    FilledAligned(blocks[..k], blocks[k].chunk);
    FilledAt(blocks, k);
    FilledGrows(blocks, blocks[k].chunk, k + 1);
  }

  lemma ArenaBlocks(sizes: map<Chunk, nat>, used: map<Chunk, nat>, a: Arena, blocks: seq<Block>)
    requires ArenaOk(sizes, used, a, blocks)
    ensures Stacked(blocks) && forall k :: 0 <= k < |blocks| ==> blocks[k].chunk in a.chunks
    ensures forall c :: c in a.chunks ==> c in sizes && Fill(a, used, c) == Filled(blocks, c) <= sizes[c]
  {
    hide Filled, Stacked, Distinct, Fill;
  }

  /** Every block that a live arena handed out is aligned to 16 bytes and inside one of its chunks. */
  lemma BlockInChunk(s: State, i: Id, k: nat)
    requires Ok(s) && IsBlock(s, i, k)
    ensures var b := s.given[i][k];
            b.chunk in s.arenas[i].chunks && b.chunk in s.sizes && b.at % 16 == 0 && b.at + b.size <= s.sizes[b.chunk] && b.chunk !in s.cache
  {
    hide Filled, Stacked, Distinct, ScanOk, Owned, Ok, ArenaOk, Fill;
    ArenaOf(s, i);
    ArenaBlocks(s.sizes, s.used, s.arenas[i], s.given[i]);
    StackedIn(s.given[i], k);
  }

  /** Blocks of live arenas do not overlap. */
  lemma BlocksDisjoint(s: State, i: Id, k: nat, j: Id, l: nat)
    requires Ok(s) && IsBlock(s, i, k) && IsBlock(s, j, l) && (i != j || k != l)
    ensures var a, b := s.given[i][k], s.given[j][l];
            a.chunk != b.chunk || a.at + a.size <= b.at || b.at + b.size <= a.at
  {
    ArenaOf(s, i);
    ArenaOf(s, j);
    hide Filled, Stacked, Distinct, ScanOk, Owned, Ok, Fill;
    if i == j && s.given[i][k].chunk == s.given[j][l].chunk {
      if k < l {
        BlocksApart(s.given[i], k, l);
      } else {
        BlocksApart(s.given[i], l, k);
      }
    }
  }

  lemma AllocatedKeys(s: State, id: Id, size: nat, chunk: Chunk)
    requires id in s.arenas && id in s.given && s.arenas[id].chunks != []
    ensures Allocated(s, id, size, chunk).0.arenas.Keys == s.arenas.Keys
  {
  }

  /** A new block has the size asked for, is aligned and inside a chunk of its arena, and is apart from every block that a
      live arena handed out before. */
  lemma NewBlock(s: State, id: Id, size: nat, chunk: Chunk, j: Id, l: nat)
    requires Ok(s) && id in s.arenas && id in s.given && s.arenas[id].chunks != [] && chunk !in s.sizes && size % 16 == 0 && IsBlock(s, j, l)
    ensures var (u, b) := Allocated(s, id, size, chunk);
            && id in u.arenas && b.size == size && b.at % 16 == 0 && b.chunk in u.arenas[id].chunks
            && b.chunk in u.sizes && b.at + size <= u.sizes[b.chunk]
            && var a := s.given[j][l]; a.chunk != b.chunk || a.at + a.size <= b.at || b.at + b.size <= a.at
  {
    hide Ok, Allocated;
    AllocateOk(s, id, size, chunk);
    AllocatedKeys(s, id, size, chunk);
    var (u, b) := Allocated(s, id, size, chunk);
    var k := |s.given[id]|;
    assert u.given[id][k] == b;
    BlockInChunk(u, id, k);
    assert u.given[j][l] == s.given[j][l];
    BlocksDisjoint(u, id, k, j, l);
  }

  // ---------------------------------------------------------------- arenas as roots

  function WordsOf(c: Chunk, n: nat): seq<(Chunk, nat)> {
    if n == 0 then [] else WordsOf(c, n - 1) + [(c, n - 1)]
  }

  function ArenaWords(a: Arena, used: map<Chunk, nat>, chunks: seq<Chunk>): seq<(Chunk, nat)> {
    if chunks == [] then []
    else
      var c := chunks[|chunks| - 1];
      ArenaWords(a, used, chunks[..|chunks| - 1]) + WordsOf(c, Fill(a, used, c) / 8)
  }

  /** The words that a collection reads from the arenas of `scan`. */
  function ScanWords(s: State, scan: seq<Id>): seq<(Chunk, nat)> {
    if scan == [] then []
    else
      var i := scan[|scan| - 1];
      ScanWords(s, scan[..|scan| - 1]) + if i in s.arenas then ArenaWords(s.arenas[i], s.used, s.arenas[i].chunks) else []
  }

  lemma {:induction false} WordsOfIn(c: Chunk, n: nat, d: Chunk, w: nat)
    ensures (d, w) in WordsOf(c, n) <==> d == c && w < n
    decreases n
  {
    if n > 0 {
      WordsOfIn(c, n - 1, d, w);
    }
  }

  lemma {:induction false} ArenaWordsIn(a: Arena, used: map<Chunk, nat>, chunks: seq<Chunk>, c: Chunk, w: nat)
    ensures (c, w) in ArenaWords(a, used, chunks) <==> c in chunks && w < Fill(a, used, c) / 8
    decreases |chunks|
  {
    if chunks != [] {
      var n := |chunks| - 1;
      ArenaWordsIn(a, used, chunks[..n], c, w);
      WordsOfIn(chunks[n], Fill(a, used, chunks[n]) / 8, c, w);
      assert c in chunks <==> c in chunks[..n] || c == chunks[n];
    }
  }

  ghost predicate Scanned(s: State, i: Id, c: Chunk, w: nat) {
    i in s.arenas && c in s.arenas[i].chunks && w < Fill(s.arenas[i], s.used, c) / 8
  }

  ghost predicate ScannedIn(s: State, scan: seq<Id>, c: Chunk, w: nat) {
    exists i :: i in scan && Scanned(s, i, c, w)
  }

  lemma ScannedLast(s: State, scan: seq<Id>, c: Chunk, w: nat)
    requires scan != []
    ensures ScannedIn(s, scan, c, w) <==> ScannedIn(s, scan[..|scan| - 1], c, w) || Scanned(s, scan[|scan| - 1], c, w)
  {
    hide Scanned;
    var n := |scan| - 1;
    assert scan == scan[..n] + [scan[n]];
  }

  lemma {:induction false} ScanWordsIn(s: State, scan: seq<Id>, c: Chunk, w: nat)
    ensures (c, w) in ScanWords(s, scan) <==> ScannedIn(s, scan, c, w)
    decreases |scan|
  {
    hide ScannedIn, ArenaWords;
    if scan == [] {
      NoneScanned(s, c, w);
    } else {
      var n := |scan| - 1;
      ScanWordsIn(s, scan[..n], c, w);
      ScannedLast(s, scan, c, w);
      if scan[n] in s.arenas {
        ArenaWordsIn(s.arenas[scan[n]], s.used, s.arenas[scan[n]].chunks, c, w);
      }
    }
  }

  lemma NoneScanned(s: State, c: Chunk, w: nat)
    ensures !ScannedIn(s, [], c, w)
  {
  }

  /** Word `w` of chunk `c` lies in a block that arena `i` handed out. */
  ghost predicate HandedWord(s: State, i: Id, c: Chunk, w: nat) {
    i in s.given && exists k :: 0 <= k < |s.given[i]| && Covers(s.given[i][k], c, 8 * w) && Covers(s.given[i][k], c, 8 * w + 7)
  }

  lemma FilledChunk(blocks: seq<Block>, c: Chunk, chunks: seq<Chunk>)
    requires forall k :: 0 <= k < |blocks| ==> blocks[k].chunk in chunks
    ensures c !in chunks ==> Filled(blocks, c) == 0
  {
    if c !in chunks {
      FilledNone(blocks, c);
    }
  }

  lemma ScannedFilled(s: State, i: Id, c: Chunk, w: nat)
    requires Ok(s) && i in s.arenas && i in s.given
    ensures Scanned(s, i, c, w) <==> 8 * w < Filled(s.given[i], c)
    ensures Stacked(s.given[i])
  {
    hide Filled, Stacked, Distinct, ScanOk, ChunksOk, Ok, ArenaOk, Fill;
    ArenaOf(s, i);
    var a, blocks := s.arenas[i], s.given[i];
    ArenaBlocks(s.sizes, s.used, a, blocks);
    FilledChunk(blocks, c, a.chunks);
    assert forall k :: 0 <= k < |blocks| ==> blocks[k].size % 16 == 0 by {
      BlockSizes(blocks);
    }
    FilledAligned(blocks, c);
  }

  lemma BlockSizes(blocks: seq<Block>)
    requires Stacked(blocks)
    ensures forall k :: 0 <= k < |blocks| ==> blocks[k].size % 16 == 0
  {
    hide Filled;
  }

  lemma ScannedHanded(s: State, i: Id, c: Chunk, w: nat)
    requires Ok(s) && i in s.arenas && i in s.given
    ensures Scanned(s, i, c, w) <==> HandedWord(s, i, c, w)
  {
    hide Ok, Scanned, Filled, Stacked;
    var blocks := s.given[i];
    ScannedFilled(s, i, c, w);
    BlocksTile(blocks, c, 8 * w);
    if k :| 0 <= k < |blocks| && Covers(blocks[k], c, 8 * w) {
      StackedIn(blocks, k);
      assert Covers(blocks[k], c, 8 * w + 7);
    }
  }

  ghost predicate HandedIn(s: State, c: Chunk, w: nat) {
    exists i :: i in s.arenas && s.arenas[i].scannable && HandedWord(s, i, c, w)
  }

  /** A collection reads exactly the words that live scannable arenas have handed out. */
  lemma ScanExact(s: State, c: Chunk, w: nat)
    requires Ok(s)
    ensures (c, w) in ScanWords(s, s.scan) <==> HandedIn(s, c, w)
  {
    hide Ok, ChunksOk, Scanned, HandedWord, ScanWords, Distinct;
    OkSplit(s);
    ScanWordsIn(s, s.scan, c, w);
    forall i | i in s.arenas
      ensures Scanned(s, i, c, w) <==> HandedWord(s, i, c, w)
    {
      ScannedHanded(s, i, c, w);
    }
  }

  // ---------------------------------------------------------------- the runtime

  class Runtime {
    var sizes: map<Chunk, nat>
    var used: map<Chunk, nat>
    var cache: seq<Chunk>
    var arenas: map<Id, Arena>
    var scan: seq<Id>
    var live: nat
    ghost var given: map<Id, seq<Block>>

    ghost function St(): State
      reads this
    {
      State(sizes, used, cache, arenas, scan, live, given)
    }

    constructor ()
      ensures Ok(St()) && arenas == map[] && cache == []
    {
      sizes, used, cache, arenas, scan, live, given := map[], map[], [], map[], [], 0, map[];
    }

    /** The number of arenas created and not yet destroyed. */
    method Live() returns (n: nat)
      requires Ok(St())
      ensures n == |arenas|
    {
      hide ChunksOk, ScanOk, ArenaOk;
      n := live;
    }

    method InstallChunk(payload: nat, chunk: Chunk) returns (c: Chunk)
      modifies this
      ensures (St(), c) == Take(old(St()), payload, chunk)
    {
      if payload == DEFAULT_CHUNK && cache != [] {
        c := cache[0];
        cache := cache[1..];
      } else {
        c := chunk;
        sizes := sizes[c := payload];
      }
    }

    /** `ubel_arena_create` and `ubel_arena_create_scan`. The system provides the arena's address and, if one is needed,
        a chunk. */
    method Create(id: Id, chunkSize: nat, scannable: bool, chunk: Chunk)
      requires Ok(St()) && id !in arenas && chunk !in sizes
      modifies this
      ensures Ok(St()) && St() == Created(old(St()), id, chunkSize, scannable, chunk)
      ensures Opens(old(St()), id, chunkSize, scannable, chunk, St())
    {
      hide Ok, Take, Opens;
      CreateOk(St(), id, chunkSize, scannable, chunk);
      var size := if chunkSize > 0 then chunkSize else DEFAULT_CHUNK;
      var c := InstallChunk(size, chunk);
      arenas := arenas[id := Arena([c], 0, size, size, scannable)];
      given := given[id := []];
      live := live + 1;
      if scannable {
        scan := [id] + scan;
      }
    }

    /** `ubel_arena_grow`. */
    method Grow(id: Id, size: nat, chunk: Chunk) returns (b: Block)
      requires Ok(St()) && id in arenas && chunk !in sizes && size % 16 == 0
      modifies this
      ensures id in old(given) && old(arenas[id].chunks) != [] && Ok(St()) && (St(), b) == Grown(old(St()), id, size, chunk)
      ensures Grows(old(St()), id, size, chunk, St(), b)
    {
      hide Ok, Held, Grows;
      ArenasHold(St());
      GrowOk(St(), id, size, chunk);
      GrownGrows(St(), id, size, chunk);
      var a := arenas[id];
      used := used[a.chunks[0] := a.cur];
      var payload := GrowSize(a, size);
      var c := InstallChunk(payload, chunk);
      arenas := arenas[id := a.(chunks := [c] + a.chunks, cur := size, end := payload)];
      b := Block(c, 0, size);
      given := given[id := given[id] + [b]];
    }

    /** `ubel_arena_bump`, with its call of the runtime when the block does not fit. */
    method Allocate(id: Id, size: nat, chunk: Chunk) returns (b: Block)
      requires Ok(St()) && id in arenas && chunk !in sizes && size % 16 == 0
      modifies this
      ensures id in old(given) && old(arenas[id].chunks) != [] && Ok(St()) && (St(), b) == Allocated(old(St()), id, size, chunk)
      ensures Answers(old(St()), id, size, chunk, St(), b)
    {
      hide Ok, Held, Answers, Grows;
      ArenasHold(St());
      AllocatedAnswers(St(), id, size, chunk);
      var a := arenas[id];
      if a.cur + size <= a.end {
        BumpOk(St(), id, size);
        b := Block(a.chunks[0], a.cur, size);
        arenas := arenas[id := a.(cur := a.cur + size)];
        given := given[id := given[id] + [b]];
      } else {
        b := Grow(id, size, chunk);
      }
    }

    /** `ubel_arena_destroy`. */
    method Destroy(id: Id)
      requires Ok(St()) && id in arenas
      modifies this
      ensures old(live) > 0 && Ok(St()) && St() == Destroyed(old(St()), id)
      ensures Closes(old(St()), id, St())
    {
      hide Ok, Closes;
      DestroyOk(St(), id);
      var a := arenas[id];
      live := live - 1;
      if a.scannable {
        scan := Without(scan, id);
      }
      var i := 0;
      while i < |a.chunks|
        invariant i <= |a.chunks|
        invariant Released(sizes, cache, a.chunks[i..]) == Released(old(sizes), old(cache), a.chunks)
        invariant used == old(used) && arenas == old(arenas) && given == old(given) && live == old(live) - 1
        invariant scan == if a.scannable then Without(old(scan), id) else old(scan)
      {
        var c := a.chunks[i];
        assert a.chunks[i..][1..] == a.chunks[i + 1..];
        if c in sizes && sizes[c] == DEFAULT_CHUNK && |cache| < CACHE_MAX {
          cache := [c] + cache;
        } else {
          sizes := sizes - {c};
        }
        i := i + 1;
      }
      arenas := arenas - {id};
      given := given - {id};
    }

    /** `scan_arena_roots`: the words read, arena by arena and chunk by chunk. */
    method Scan() returns (words: seq<(Chunk, nat)>)
      requires Ok(St())
      ensures words == ScanWords(St(), scan)
      ensures forall c: Chunk, w: nat :: (c, w) in words <==> HandedIn(St(), c, w)
    {
      hide Ok, HandedIn, ArenaWords;
      words := [];
      for i := 0 to |scan|
        invariant words == ScanWords(St(), scan[..i])
      {
        assert scan[..i + 1][..i] == scan[..i];
        if scan[i] in arenas {
          var more := ScanArena(arenas[scan[i]]);
          words := words + more;
        }
      }
      assert scan[..|scan|] == scan;
      forall c: Chunk, w: nat
        ensures (c, w) in words <==> HandedIn(St(), c, w)
      {
        ScanExact(St(), c, w);
      }
    }

    method ScanArena(a: Arena) returns (words: seq<(Chunk, nat)>)
      ensures words == ArenaWords(a, used, a.chunks)
    {
      words := [];
      for i := 0 to |a.chunks|
        invariant words == ArenaWords(a, used, a.chunks[..i])
      {
        assert a.chunks[..i + 1][..i] == a.chunks[..i];
        var c := a.chunks[i];
        var hi := if i == 0 || c == a.chunks[0] then a.cur else if c in used then used[c] else 0;
        ghost var before := words;
        var p := 0;
        while 8 * (p + 1) <= hi
          invariant 8 * p <= hi && words == before + WordsOf(c, p)
        {
          words := words + [(c, p)];
          p := p + 1;
        }
      }
      assert a.chunks[..|a.chunks|] == a.chunks;
    }
  }
}

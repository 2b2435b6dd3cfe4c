/** Tables of bits packed into 64-bit words: the pointer bitmap of the heap and the slot maps of a span
    (crates/llvm_poc/runtime/ubel_rt.c). */
module BitTable {
  import opened Wrappers
  import opened BitWords

  /** Bit `k` of a table. */
  predicate Has(t: seq<bv64>, k: nat)
    requires k < 64 * |t|
  {
    Bit(t[k / 64], k % 64)
  }

  function SetBit(t: seq<bv64>, k: nat): (r: seq<bv64>)
    requires k < 64 * |t|
    ensures |r| == |t|
  {
    t[k / 64 := Or(t[k / 64], Shl(1, k % 64))]
  }

  lemma HasSet(t: seq<bv64>, k: nat, j: nat)
    requires k < 64 * |t| && j < 64 * |t|
    ensures Has(SetBit(t, k), j) == (j == k || Has(t, j))
  {
    hide Bit, Or, Shl;
    if j / 64 == k / 64 {
      OrBit(t[k / 64], Shl(1, k % 64), j % 64);
      OneBit(k % 64, j % 64);
    }
  }

  // ---------------------------------------------------------------- the pointer bitmap

  /** The first word that a write of `n` bits at offset `off` touches. */
  function WriteLow(w: bv64, off: nat, n: nat, mask: bv64): bv64 {
    Or(And(w, Not(Shl(Ones(n), off))), Shl(And(mask, Ones(n)), off))
  }

  function WriteHigh(w: bv64, lo: nat, n: nat, mask: bv64): bv64 {
    Or(And(w, Not(Shr(Ones(n), lo))), Shr(And(mask, Ones(n)), lo))
  }

  lemma WriteLowBit(w: bv64, off: nat, n: nat, mask: bv64, j: nat)
    requires off < 64 && n <= 64 && j < 64
    ensures Bit(WriteLow(w, off, n, mask), j) == if off <= j < off + n then Bit(mask, j - off) else Bit(w, j)
  {
    hide Bit, Or, And, Not, Shl, Ones;
    OrBit(And(w, Not(Shl(Ones(n), off))), Shl(And(mask, Ones(n)), off), j);
    AndBit(w, Not(Shl(Ones(n), off)), j);
    NotBit(Shl(Ones(n), off), j);
    ShlBit(Ones(n), off, j);
    ShlBit(And(mask, Ones(n)), off, j);
    if off <= j {
      OnesBit(n, j - off);
      AndBit(mask, Ones(n), j - off);
    }
  }

  lemma WriteHighBit(w: bv64, lo: nat, n: nat, mask: bv64, j: nat)
    requires lo <= 64 && n <= 64 && j < 64
    ensures Bit(WriteHigh(w, lo, n, mask), j) == if lo + j < n then Bit(mask, lo + j) else Bit(w, j)
  {
    hide Bit, Or, And, Not, Shr, Ones;
    OrBit(And(w, Not(Shr(Ones(n), lo))), Shr(And(mask, Ones(n)), lo), j);
    AndBit(w, Not(Shr(Ones(n), lo)), j);
    NotBit(Shr(Ones(n), lo), j);
    ShrBit(Ones(n), lo, j);
    ShrBit(And(mask, Ones(n)), lo, j);
    OnesBit(n, lo + j);
    AndBit(mask, Ones(n), lo + j);
  }

  /** `t` after bits `at` to `at + n - 1` have been replaced by the low `n` bits of `mask`. */
  ghost predicate Written(t: seq<bv64>, t': seq<bv64>, at: nat, n: nat, mask: bv64) {
    && |t'| == |t|
    && forall k: nat :: k < 64 * |t| ==> (Has(t', k) <==> if at <= k < at + n then Bit(mask, k - at) else Has(t, k))
  }

  lemma WriteBits(t: seq<bv64>, t': seq<bv64>, at: nat, n: nat, mask: bv64)
    requires |t'| == |t| && n <= 64 && at + n <= 64 * |t| && at < 64 * |t|
    requires forall i: nat :: i < |t| && i != at / 64 && i != at / 64 + 1 ==> t'[i] == t[i]
    requires t'[at / 64] == WriteLow(t[at / 64], at % 64, n, mask)
    requires at / 64 + 1 < |t| ==>
               t'[at / 64 + 1] == if at % 64 + n > 64 then WriteHigh(t[at / 64 + 1], 64 - at % 64, n, mask) else t[at / 64 + 1]
    ensures Written(t, t', at, n, mask)
  {
    hide Bit, WriteLow, WriteHigh;
    forall k: nat | k < 64 * |t|
      ensures Has(t', k) == if at <= k < at + n then Bit(mask, k - at) else Has(t, k)
    {
      var i, off := at / 64, at % 64;
      if k / 64 == i {
        WriteLowBit(t[i], off, n, mask, k % 64);
      } else if k / 64 == i + 1 && off + n > 64 {
        WriteHighBit(t[i + 1], 64 - off, n, mask, k % 64);
      }
    }
  }

  /** `hb_write`: a write may straddle two words. */
  method Write(a: array<bv64>, at: nat, n: nat, mask: bv64)
    requires n <= 64 && at + n <= 64 * a.Length && at < 64 * a.Length
    modifies a
    ensures Written(old(a[..]), a[..], at, n, mask)
  {
    hide Bit, WriteLow, WriteHigh, Written;
    var i, off := at / 64, at % 64;
    a[i] := WriteLow(a[i], off, n, mask);
    if off + n > 64 {
      a[i + 1] := WriteHigh(a[i + 1], 64 - off, n, mask);
    }
    WriteBits(old(a[..]), a[..], at, n, mask);
  }

  /** `hb_read`: the `n` bits from position `at`. */
  method Read(a: array<bv64>, at: nat, n: nat) returns (v: bv64)
    requires n <= 64 && at + n <= 64 * a.Length && at < 64 * a.Length
    ensures forall j: nat :: j < 64 ==> Bit(v, j) == (j < n && Has(a[..], at + j))
  {
    hide Bit, Or, And, Shl, Shr, Ones;
    var i, off := at / 64, at % 64;
    v := Shr(a[i], off);
    ghost var low := v;
    if off + n > 64 {
      v := Or(v, Shl(a[i + 1], 64 - off));
    }
    ghost var wide := v;
    v := And(v, Ones(n));
    forall j: nat | j < 64
      ensures Bit(v, j) == (j < n && Has(a[..], at + j))
    {
      AndBit(wide, Ones(n), j);
      OnesBit(n, j);
      ShrBit(a[i], off, j);
      if off + j >= 64 {
        NoBitAbove(a[i], off + j);
      }
      if off + n > 64 {
        OrBit(low, Shl(a[i + 1], 64 - off), j);
        ShlBit(a[i + 1], 64 - off, j);
      }
    }
  }

  /** `t` after bits `at` to `at + n - 1` have been cleared. */
  ghost predicate Cleared(t: seq<bv64>, t': seq<bv64>, at: nat, n: nat) {
    && |t'| == |t|
    && forall k: nat :: k < 64 * |t| ==> (Has(t', k) <==> !(at <= k < at + n) && Has(t, k))
  }

  lemma ClearBits(t: seq<bv64>, t': seq<bv64>, at: nat, n: nat)
    requires at < 64 * |t| && at % 64 + n <= 64 && n > 0
    requires t' == t[at / 64 := And(t[at / 64], Not(Shl(Ones(n), at % 64)))]
    ensures Cleared(t, t', at, n)
  {
    hide Bit, And, Not, Shl, Ones;
    var i, off := at / 64, at % 64;
    forall k: nat | k < 64 * |t|
      ensures Has(t', k) == (!(at <= k < at + n) && Has(t, k))
    {
      if k / 64 == i {
        var j := k % 64;
        AndBit(t[i], Not(Shl(Ones(n), off)), j);
        NotBit(Shl(Ones(n), off), j);
        ShlBit(Ones(n), off, j);
        if off <= j {
          OnesBit(n, j - off);
        }
      }
    }
  }

  lemma ClearMore(t: seq<bv64>, t1: seq<bv64>, t2: seq<bv64>, at: nat, m: nat, n: nat)
    requires Cleared(t, t1, at, m) && Cleared(t1, t2, at + m, n)
    ensures Cleared(t, t2, at, m + n)
  {
    hide Has;
  }

  lemma ClearNone(t: seq<bv64>, at: nat)
    ensures Cleared(t, t, at, 0)
  {
    hide Has;
  }

  /** `hb_clear_range`: any number of bits, one word of the table at a time. */
  method ClearRange(a: array<bv64>, at: nat, n: nat)
    requires at + n <= 64 * a.Length
    modifies a
    ensures Cleared(old(a[..]), a[..], at, n)
  {
    hide Has, Cleared, Shl, Ones, Not, And;
    var w: nat := at;
    ClearNone(a[..], at);
    while w < at + n
      invariant at <= w <= at + n
      invariant Cleared(old(a[..]), a[..], at, w - at)
    {
      var off := w % 64;
      var take: nat := if 64 - off > at + n - w then at + n - w else 64 - off;
      ghost var before := a[..];
      a[w / 64] := And(a[w / 64], Not(Shl(Ones(take), off)));
      assert a[..] == before[w / 64 := And(before[w / 64], Not(Shl(Ones(take), off)))];
      ClearBits(before, a[..], w, take);
      ClearMore(old(a[..]), before, a[..], at, w - at, take);
      w := w + take;
    }
  }

  // ---------------------------------------------------------------- slot maps

  /** `span_next_free`: the first free slot from `from` on, one word of the map at a time. */
  method NextFree(t: seq<bv64>, from: nat, n: nat) returns (r: Option<nat>)
    requires n <= 64 * |t|
    ensures r.Some? ==> from <= r.value < n && !Has(t, r.value) && forall k: nat :: from <= k < r.value ==> Has(t, k)
    ensures r.None? ==> forall k: nat :: from <= k < n ==> Has(t, k)
  {
    hide Bit, Not, Shr;
    var i: nat := from;
    while i < n
      invariant from <= i && forall k: nat :: from <= k < i && k < n ==> Has(t, k)
    {
      var free := Shr(Not(t[i / 64]), i % 64);
      FreeBits(t, i, free);
      if free != 0 {
        var z := TrailingZeros(free);
        if i + z >= n {
          return None;
        }
        return Some(i + z);
      }
      FreeNone(free);
      i := i / 64 * 64 + 64;
    }
    r := None;
  }

  lemma FreeNone(free: bv64)
    ensures free == 0 ==> forall j: nat :: !Bit(free, j)
  {
    hide Bit;
    forall j: nat
      ensures !Bit(0, j)
    {
      ZeroBit(j);
    }
  }

  lemma FreeBits(t: seq<bv64>, i: nat, free: bv64)
    requires i < 64 * |t| && free == Shr(Not(t[i / 64]), i % 64)
    ensures forall j: nat :: Bit(free, j) ==> i % 64 + j < 64
    ensures forall k: nat :: i <= k < i / 64 * 64 + 64 ==> (Bit(free, k - i) <==> !Has(t, k))
  {
    hide Bit, Not, Shr;
    forall j: nat
      ensures Bit(free, j) == (i % 64 + j < 64 && !Has(t, i + j))
    {
      ShrBit(Not(t[i / 64]), i % 64, j);
      NotBit(t[i / 64], i % 64 + j);
    }
    forall k: nat | i <= k < i / 64 * 64 + 64
      ensures Bit(free, k - i) <==> !Has(t, k)
    {
      assert Bit(free, k - i) == (i % 64 + (k - i) < 64 && !Has(t, i + (k - i)));
    }
  }

  // ---------------------------------------------------------------- counting

  /** The number of set bits below `n`. */
  function Count(t: seq<bv64>, n: nat): (c: nat)
    requires n <= 64 * |t|
    ensures c <= n
    decreases n
  {
    if n == 0 then 0 else Count(t, n - 1) + if Has(t, n - 1) then 1 else 0
  }

  /** The number of set bits of a word below `n`. */
  function PopBelow(m: bv64, n: nat): nat {
    if n == 0 then 0 else PopBelow(m, n - 1) + if Bit(m, n - 1) then 1 else 0
  }

  function PopCount(m: bv64): nat {
    PopBelow(m, 64)
  }

  lemma HasAt(t: seq<bv64>, w: nat, j: nat)
    requires w < |t| && j < 64
    ensures Has(t, 64 * w + j) == Bit(t[w], j)
  {
    hide Bit;
    DivWord(w, j);
  }

  lemma DivWord(w: nat, j: nat)
    requires j < 64
    ensures (64 * w + j) / 64 == w && (64 * w + j) % 64 == j
  {
  }

  lemma {:induction false} CountWord(t: seq<bv64>, w: nat, j: nat)
    requires w < |t| && j <= 64
    ensures Count(t, 64 * w + j) == Count(t, 64 * w) + PopBelow(t[w], j)
    decreases j
  {
    hide Bit, Has;
    if j > 0 {
      CountWord(t, w, j - 1);
      HasAt(t, w, j - 1);
    }
  }

  lemma {:induction false} CountSame(t: seq<bv64>, t': seq<bv64>, n: nat)
    requires n <= 64 * |t| && |t'| == |t| && forall k: nat :: k < n ==> Has(t, k) == Has(t', k)
    ensures Count(t, n) == Count(t', n)
    decreases n
  {
    hide Has;
    if n > 0 {
      CountSame(t, t', n - 1);
    }
  }

  lemma {:induction false} CountSet(t: seq<bv64>, k: nat, n: nat)
    requires n <= 64 * |t| && k < 64 * |t| && !Has(t, k)
    ensures Count(SetBit(t, k), n) == Count(t, n) + if k < n then 1 else 0
    decreases n
  {
    hide Has, SetBit;
    if n > 0 {
      HasSet(t, k, n - 1);
      CountSet(t, k, n - 1);
    }
  }

  /** No bits above `n` are set: counting further adds nothing. */
  lemma {:induction false} CountTail(t: seq<bv64>, n: nat, m: nat)
    requires n <= m <= 64 * |t| && forall k: nat :: n <= k < m ==> !Has(t, k)
    ensures Count(t, m) == Count(t, n)
    decreases m
  {
    hide Has;
    if m > n {
      CountTail(t, n, m - 1);
    }
  }

  lemma {:induction false} CountFull(t: seq<bv64>, n: nat)
    requires n <= 64 * |t|
    ensures Count(t, n) == n <==> forall k: nat :: k < n ==> Has(t, k)
    ensures Count(t, n) == 0 <==> forall k: nat :: k < n ==> !Has(t, k)
    decreases n
  {
    hide Has;
    if n > 0 {
      CountFull(t, n - 1);
    }
  }
}

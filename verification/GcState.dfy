/** The state of the collected heap (crates/llvm_poc/runtime/ubel_rt.c). */
module GcState {
  import opened Wrappers
  import opened BitWords
  import opened BitTable
  import opened GcHeap

  /** An empty slot map. */
  const NO_BITS: seq<bv64> := [
    0, 0, 0, 0, 0, 0, 0, 0, 0, 0, 0, 0, 0, 0, 0, 0,
    0, 0, 0, 0, 0, 0, 0, 0, 0, 0, 0, 0, 0, 0, 0, 0]

  const FREE_SPAN := Span(Free, 0, false, false, 0, 0, 0, 0, 0, 0, NO_BITS, NO_BITS)

  class Gc {
    const base: Word
    const spans: array<Span>
    const mem: array<Word>
    const bits: array<bv64>
    var used: nat
    var inUse: nat
    var freeSpans: seq<nat>
    var cur: seq<Option<nat>>
    var partial: seq<seq<nat>>
    var lastLive: nat
    var sinceGc: nat
    var trigger: nat
    var minTrigger: nat
    var stressEvery: nat
    var stressSkip: nat
    var mstack: seq<Word>
    ghost var gray: seq<Obj>
    ghost var marked: set<Obj>

    function H(): Heap
      reads this, spans, mem, bits
    {
      Heap(base, spans[..], used, mem[..], bits[..])
    }

    /** `ubel_gc_init`, for a heap of `n` spans at address `base`. */
    constructor (base: Word, n: nat, minTrigger: nat, stressEvery: nat)
      ensures fresh(spans) && fresh(mem) && fresh(bits)
      ensures this.base == base && used == 0 && inUse == 0 && freeSpans == [] && lastLive == 0 && sinceGc == 0
      ensures this.minTrigger == minTrigger && this.stressEvery == stressEvery && trigger == if stressEvery > 0 then 0 else minTrigger
      ensures cur == seq(NUM_CLASSES, _ => None) && partial == seq(NUM_CLASSES, _ => []) && mstack == [] && gray == [] && marked == {}
      ensures spans.Length == n && mem.Length == SPAN_WORDS * n && bits.Length == 64 * n + 8
      ensures (forall i :: 0 <= i < n ==> spans[i] == FREE_SPAN) && forall w :: 0 <= w < mem.Length ==> mem[w] == 0
      ensures (bits as object) != (spans as object) && (mem as object) != (spans as object) && (mem as object) != (bits as object)
    {
      this.base := base;
      spans := new Span[n](_ => FREE_SPAN);
      mem := new Word[SPAN_WORDS * n](_ => 0);
      bits := new bv64[64 * n + 8](_ => 0);
      used, inUse, freeSpans, lastLive, sinceGc := 0, 0, [], 0, 0;
      cur, partial, mstack, gray, marked := seq(NUM_CLASSES, _ => None), seq(NUM_CLASSES, _ => []), [], [], {};
      this.minTrigger, this.stressEvery, stressSkip := minTrigger, stressEvery, 0;
      trigger := if stressEvery > 0 then 0 else minTrigger;
    }
  }
}

/** The shared and per-thread state of Ralloc's lock-free allocator.

    Superblocks and their descriptors share one index: descriptor `d` describes
    superblock `d`. A block is named by its superblock and its position in it;
    `Layout` ties these names to byte addresses.

    Fields and maps whose comment says "auxiliary" record history that no step
    ever reads to decide what to do: they are the ghost ownership of the proof.
*/
module AllocatorState {

  // ---------- the concrete data structures ----------

  datatype Ptr = Null | To(d: int)

  /** A list head with its push counter (ptr_cnt). */
  datatype Head = Head(ptr: Ptr, cnt: int)

  datatype SbState = ErrorState | Full | Partial | Empty

  /** The packed word every flusher and filler updates by CAS. */
  datatype Anchor = Anchor(avail: int, count: int, state: SbState)

  datatype HeapRef = NoHeap | HeapOf(sc: int)

  datatype Block = Block(sb: int, idx: int)

  /** What the first word of a block holds. */
  datatype Link = Nil | At(b: Block)

  /** block_size has 32 bits: that many superblocks are too many to be stored. */
  const SPAN_LIMIT := 65536

  /** What block_size keeps of a size of n superblocks. */
  function Stored(n: int): int { n % SPAN_LIMIT }

  /** `span` is block_size of a large allocation, counted in superblocks. */
  datatype Desc = Desc(nextFree: Ptr, nextPartial: Ptr, anchor: Anchor,
                       heap: HeapRef, maxcount: int, span: int)

  const FreshDesc := Desc(Null, Null, Anchor(0, 0, ErrorState), NoHeap, 0, 0)

  /** A tagged lock-free stack; `lst` is auxiliary: its elements from the top. */
  datatype Stack = Stack(head: Head, lst: seq<int>)

  /** A thread cache for one size class; `blocks` is auxiliary. */
  datatype Bin = Bin(head: Link, num: int, blocks: seq<Block>)

  /** What flush_cache returns to: the free that found its cache full, or an explicit flush. */
  datatype FlushFor = ForFree(b: Block) | ForExit

  /** What publishing free superblocks returns to. */
  datatype After = Refill(sc: int) | Flushing(sc: int, f: FlushFor) | Build(sc: int, d: int) | Done

  /** Inside malloc with an empty cache for class sc. */
  datatype FillPc =
    // heap_pop_partial and malloc_from_partial
    | PopLoad
    | PopRead(seen: Head)
    | PopCas(seen: Head, next: Ptr)
    | TakeLoad(d: int)
    | TakeCas(d: int, cur: Anchor, mx: int)
    // small_sb_alloc
    | SbLoad
    | SbRead(seen: Head)
    | SbCas(seen: Head, next: Ptr)
    | GrowLoad(seen: Head)
    | GrowCheck(seen: Head, fr: int)
    | GrowCas(seen: Head, fr: int)
    // malloc_from_newsb
    | NewInit(d: int)
    | NewDesc(d: int)
    | NewLink(d: int, i: int)

  /** Inside organize_sb_list for descriptors lo .. lo + n; small_sb_retire is the case n == 1. */
  datatype OrgPc = OrgInit(i: int) | OrgLoad | OrgLink(seen: Head) | OrgCas(seen: Head)

  /** Inside do_free and flush_cache; blks are the block indices from head to tail. */
  datatype FlushPc =
    | FlPick
    | FlLoad(d: int, blks: seq<int>)
    | FlLink(d: int, blks: seq<int>, cur: Anchor)
    | FlCas(d: int, blks: seq<int>, cur: Anchor, upd: Anchor)
    // heap_push_partial
    | PpLoad(d: int)
    | PpLink(hs: int, d: int, seen: Head)
    | PpCas(hs: int, d: int, seen: Head)
    // the final push_block of do_free
    | FreePush

  datatype BigPc = BigLoad | BigCas(fr: int) | BigInit(lo: int)

  /** One program counter per shared access; arguments are the thread's locals. */
  datatype Pc =
    | Idle
    | Aborted
    | Fill(sc: int, fill: FillPc)
    | MallocPop(sc: int)
    | Org(lo: int, n: int, k: After, org: OrgPc)
    | Flush(sc: int, f: FlushFor, fl: FlushPc)
    | Large(n: int, big: BigPc)

  datatype Thread = Thread(bins: int -> Bin, pc: Pc)

  // ---------- auxiliary ownership ----------

  /** Who may use a block. Blocks of superblocks that are not in use are Unused. */
  datatype Owner = Unused | App | Cached(t: int, sc: int) | InHand(t: int) | Freeing(t: int) | Chained

  /** Where a descriptor is. */
  datatype Place =
    | Unborn
    | Skipped                  // superblock 0, so that no offset is 0
    | Listed(sc: int)          // on the partial list of its heap
    | Avail                    // on avail_sb
    | Active                   // in use and full: on no list
    | HeldUsed(t: int)         // unlisted, its superblock in use, in the hand of t
    | HeldFree(t: int)         // unlisted, its superblock free, in the hand of t
    | Big(lo: int, n: int)     // part of the large allocation lo .. lo + n

  datatype Config = Config(classes: int, maxcount: int -> int, grow: int, limit: int)

  /** Class 0 is for large allocations; every small superblock has at least two blocks;
      one expansion brings at least two superblocks. */
  ghost predicate GoodConfig(c: Config) {
    && c.grow >= 2
    && forall sc :: 1 <= sc < c.classes ==> c.maxcount(sc) >= 2
  }

  /** Everything the threads share. */
  datatype Mem = Mem(
    desc: int -> Desc,
    link: Block -> Link,
    partialList: int -> Stack,
    availSb: Stack,
    frontier: int,
    // auxiliary from here on
    owner: Block -> Owner,
    place: int -> Place,
    chain: int -> seq<int>,      // the free chain of a superblock in use
    emptied: int -> int,         // how often the superblock became empty
    retired: int -> int)         // how often it was retired

  datatype State = State(cfg: Config, m: Mem, th: int -> Thread)

  /** What a step of one thread leaves behind. */
  datatype Out = Out(m: Mem, th: Thread)

  // ---------- updates ----------

  function Upd<A(==), B>(f: A -> B, a: A, b: B): A -> B {
    x => if x == a then b else f(x)
  }

  ghost function SetRange(f: int -> Place, lo: int, n: int, p: Place): int -> Place {
    x => if lo <= x < lo + n then p else f(x)
  }

  ghost function SetBlocks(f: Block -> Owner, d: int, idxs: seq<int>, o: Owner): Block -> Owner {
    (b: Block) => if b.sb == d && b.idx in idxs then o else f(b)
  }

  ghost function ClearSb(f: Block -> Owner, d: int): Block -> Owner {
    (b: Block) => if b.sb == d then Unused else f(b)
  }

  ghost function Go(m: Mem, th: Thread, pc: Pc): Out {
    Out(m, th.(pc := pc))
  }

  ghost function GoBin(m: Mem, th: Thread, sc: int, bin: Bin, pc: Pc): Out {
    Out(m, Thread(Upd(th.bins, sc, bin), pc))
  }

  ghost function BlocksOf(d: int, idxs: seq<int>): (r: seq<Block>)
    ensures |r| == |idxs|
    ensures forall i :: 0 <= i < |r| ==> r[i] == Block(d, idxs[i])
  {
    seq(|idxs|, i requires 0 <= i < |idxs| => Block(d, idxs[i]))
  }

  ghost function Iota(lo: int, n: int): (r: seq<int>)
    ensures n >= 0 ==> |r| == n
    ensures forall i :: 0 <= i < |r| ==> r[i] == lo + i
  {
    if n < 0 then [] else seq(n, i requires 0 <= i < n => lo + i)
  }
}

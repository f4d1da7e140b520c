/**
 * The PSRAM bump allocator of psram_helper.c: an 8 MiB region at
 * 0x11000000 handed out front to back in word-aligned blocks that are
 * zeroed on allocation and never freed.
 */
module PsramHelper {
  import opened Bytes

  const PSRAM_BASE_ADDR: int := 0x11000000
  const PSRAM_SIZE: int := 8 * 1024 * 1024
  /** size_t on the RP2350 is 32 bits wide. */
  const SIZE_T_MODULUS: int := 0x1_0000_0000
  const NULL: int := 0

  /** (size + 3) & ~3 evaluated in 32-bit size_t arithmetic. */
  function AlignUp(size: int): (r: int)
    requires 0 <= size < SIZE_T_MODULUS
    ensures 0 <= r < SIZE_T_MODULUS && r % 4 == 0
  {
    var s := (size + 3) % SIZE_T_MODULUS;
    s - s % 4
  }

  /** Away from the top of the size_t range the rounding is the usual one. */
  lemma AlignUpRounds(size: int)
    requires 0 <= size <= SIZE_T_MODULUS - 4
    ensures size <= AlignUp(size) < size + 4
    ensures forall m :: size <= m && m % 4 == 0 ==> AlignUp(size) <= m
  {
  }

  /** The last three size_t values wrap around to a zero-byte request. */
  lemma AlignUpWrapsNearLimit(size: int)
    requires SIZE_T_MODULUS - 3 <= size < SIZE_T_MODULUS
    ensures AlignUp(size) == 0
  {
  }

  /** One block handed out by psram_malloc: its address and rounded size. */
  datatype Block = Block(addr: int, size: int)

  /** The blocks lie back to back from `start`, in allocation order, ending at `end`. */
  ghost predicate Contiguous(blocks: seq<Block>, start: int, end: int)
    decreases |blocks|
  {
    if |blocks| == 0 then start == end
    else blocks[0].addr == start && blocks[0].size >= 0
         && Contiguous(blocks[1..], start + blocks[0].size, end)
  }

  lemma {:induction false} ContiguousExtend(blocks: seq<Block>, start: int, end: int, b: Block)
    requires Contiguous(blocks, start, end) && b.addr == end && b.size >= 0
    ensures Contiguous(blocks + [b], start, end + b.size)
    decreases |blocks|
  {
    if |blocks| == 0 {
      assert blocks + [b] == [b];
      assert [b][1..] == [];
    } else {
      assert (blocks + [b])[1..] == blocks[1..] + [b];
      ContiguousExtend(blocks[1..], start + blocks[0].size, end, b);
    }
  }

  /** Back-to-back blocks are pairwise disjoint and stay inside [start, end). */
  lemma {:induction false} ContiguousDisjoint(blocks: seq<Block>, start: int, end: int)
    requires Contiguous(blocks, start, end)
    ensures forall i :: 0 <= i < |blocks| ==> start <= blocks[i].addr && blocks[i].addr + blocks[i].size <= end
    ensures forall i, j :: 0 <= i < j < |blocks| ==> blocks[i].addr + blocks[i].size <= blocks[j].addr
    decreases |blocks|
  {
    if |blocks| > 0 {
      var rest := blocks[1..];
      ContiguousDisjoint(rest, start + blocks[0].size, end);
      forall i, j | 0 <= i < j < |blocks|
        ensures blocks[i].addr + blocks[i].size <= blocks[j].addr
      {
        assert blocks[j] == rest[j - 1];
        if i > 0 {
          assert blocks[i] == rest[i - 1];
        }
      }
      forall i | 0 <= i < |blocks|
        ensures start <= blocks[i].addr && blocks[i].addr + blocks[i].size <= end
      {
        if i > 0 {
          assert blocks[i] == rest[i - 1];
        }
      }
    }
  }

  /** psram_allocator_t together with the PSRAM contents it hands out. */
  class PsramAllocator {
    var base: int
    var current: int
    var remaining: int
    var initialized: bool
    /** PSRAM contents, indexed by address - PSRAM_BASE_ADDR. */
    var memory: array<byte>
    /** Every block returned so far. */
    ghost var blocks: seq<Block>

    ghost predicate Valid()
      reads this
    {
      memory.Length == PSRAM_SIZE
      && (initialized ==>
            base == PSRAM_BASE_ADDR && base <= current && 0 <= remaining
            && (current - base) + remaining == PSRAM_SIZE
            && Contiguous(blocks, base, current))
      && (!initialized ==> base == 0 && current == 0 && remaining == 0 && blocks == [])
    }

    /** The zero-initialised global: nothing is set up yet. */
    constructor (contents: array<byte>)
      requires contents.Length == PSRAM_SIZE
      ensures Valid() && !initialized && memory == contents
    {
      base, current, remaining, initialized := 0, 0, 0, false;
      memory := contents;
      blocks := [];
    }

    /** psram_init: sets the allocator up on the first call only; always succeeds. */
    method Init() returns (ok: bool)
      requires Valid()
      modifies this
      ensures Valid() && ok && initialized && memory == old(memory)
      ensures old(initialized) ==> base == old(base) && current == old(current)
                                   && remaining == old(remaining) && blocks == old(blocks)
      ensures !old(initialized) ==> current == PSRAM_BASE_ADDR && remaining == PSRAM_SIZE && blocks == []
    {
      if initialized {
        return true;
      }
      base := PSRAM_BASE_ADDR;
      current := base;
      remaining := PSRAM_SIZE;
      initialized := true;
      blocks := [];
      return true;
    }

    /**
     * psram_malloc: NULL when uninitialised or when the rounded size does not
     * fit; otherwise the old bump address, with the block zeroed.
     */
    method Malloc(size: int) returns (ptr: int)
      requires Valid() && 0 <= size < SIZE_T_MODULUS
      modifies this, memory
      ensures Valid() && memory == old(memory) && initialized == old(initialized) && base == old(base)
      ensures var rounded := AlignUp(size);
        if !old(initialized) || rounded > old(remaining) then
          ptr == NULL && current == old(current) && remaining == old(remaining)
          && blocks == old(blocks) && memory[..] == old(memory[..])
        else
          ptr == old(current) && ptr != NULL
          && current == old(current) + rounded && remaining == old(remaining) - rounded
          && blocks == old(blocks) + [Block(ptr, rounded)]
          && (forall k :: ptr - PSRAM_BASE_ADDR <= k < ptr - PSRAM_BASE_ADDR + rounded ==> memory[k] == 0)
          && (forall k :: 0 <= k < PSRAM_SIZE && !(ptr - PSRAM_BASE_ADDR <= k < ptr - PSRAM_BASE_ADDR + rounded)
                ==> memory[k] == old(memory[k]))
    {
      if !initialized {
        return NULL;
      }
      var rounded := AlignUp(size);
      if rounded > remaining {
        return NULL;
      }
      ptr := current;
      ContiguousExtend(blocks, base, current, Block(ptr, rounded));
      current := current + rounded;
      remaining := remaining - rounded;
      blocks := blocks + [Block(ptr, rounded)];
      Memset(ptr - PSRAM_BASE_ADDR, rounded);
    }

    /** memset(ptr, 0, size) over the PSRAM contents. */
    method Memset(offset: int, n: int)
      requires memory.Length == PSRAM_SIZE && 0 <= offset && 0 <= n && offset + n <= PSRAM_SIZE
      modifies memory
      ensures forall k :: offset <= k < offset + n ==> memory[k] == 0
      ensures forall k :: 0 <= k < memory.Length && !(offset <= k < offset + n) ==> memory[k] == old(memory[k])
    {
      var i := 0;
      while i < n
        invariant 0 <= i <= n
        invariant forall k :: offset <= k < offset + i ==> memory[k] == 0
        invariant forall k :: 0 <= k < memory.Length && !(offset <= k < offset + i) ==> memory[k] == old(memory[k])
      {
        memory[offset + i] := 0;
        i := i + 1;
      }
    }

    /** psram_get_free. */
    method GetFree() returns (free: int)
      requires Valid()
      ensures 0 <= free <= PSRAM_SIZE
      ensures !initialized ==> free == 0
      ensures initialized ==> free == PSRAM_SIZE - (current - base)
    {
      free := if initialized then remaining else 0;
    }

    /** psram_get_stats: used + remaining accounts for the whole region. */
    method GetStats() returns (used: int, total: int)
      requires Valid()
      ensures total == PSRAM_SIZE && 0 <= used <= total
      ensures !initialized ==> used == 0
      ensures initialized ==> used == current - base
    {
      total := PSRAM_SIZE;
      used := if initialized then PSRAM_SIZE - remaining else 0;
    }

    /** Every block handed out lies inside the region and no two overlap. */
    lemma BlocksDisjoint()
      requires Valid() && initialized
      ensures forall i :: 0 <= i < |blocks| ==>
        PSRAM_BASE_ADDR <= blocks[i].addr && blocks[i].addr + blocks[i].size <= PSRAM_BASE_ADDR + PSRAM_SIZE
      ensures forall i, j :: 0 <= i < j < |blocks| ==> blocks[i].addr + blocks[i].size <= blocks[j].addr
    {
      ContiguousDisjoint(blocks, base, current);
    }
  }
}

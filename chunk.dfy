/**
 * `FChunk`: a CHUNK_SIZE³ grid of voxel blocks whose storage is a slab
 * taken from a fixed pool of 500 slabs on `Load` and handed back on
 * `Unload`. The pool is a static member in the engine; here it is the
 * object a chunk is constructed with.
 */
module Chunks {

  /** Edge length of a chunk, in blocks. */
  const CHUNK_SIZE: nat := 16
  /** Blocks in one chunk, which is also the size of one pool slab. */
  const BLOCKS_PER_CHUNK: nat := CHUNK_SIZE * CHUNK_SIZE * CHUNK_SIZE
  /** Number of slabs in the chunk allocator. */
  const POOL_CAPACITY: nat := 500

  /** `FBlock`, defined in Block.h, which is not part of this model. */
  type Block(0)

  /** The state `Load` gives every block. */
  const DefaultBlock: Block

  /** The chunk dimensions as the engine declares them, all within `uint32_t`. */
  lemma ChunkConstants()
    ensures BLOCKS_PER_CHUNK == 4096 && BLOCKS_PER_CHUNK < 0x1_0000_0000
  {
  }

  /** `FPoolAllocator<SlabSize, Capacity>`: hands out at most `capacity` slabs at a time. */
  class PoolAllocator {
    const capacity: nat
    const slabSize: nat
    /** Slabs handed out and not yet freed. */
    var live: nat
    ghost var issued: set<array<Block>>

    ghost predicate Valid()
      reads this
    {
      && live == |issued|
      && live <= capacity
      && forall slab :: slab in issued ==> slab.Length == slabSize
    }

    constructor (capacity: nat, slabSize: nat)
      ensures Valid()
      ensures this.capacity == capacity && this.slabSize == slabSize
      ensures live == 0 && issued == {}
    {
      this.capacity := capacity;
      this.slabSize := slabSize;
      live := 0;
      issued := {};
    }

    /** A fresh slab of `slabSize` blocks, or null when every slab is in use. */
    method Allocate() returns (slab: array?<Block>)
      requires Valid()
      modifies this
      ensures Valid()
      ensures slab == null <==> old(live) == capacity
      ensures slab == null ==> live == old(live) && issued == old(issued)
      ensures slab != null ==>
                && fresh(slab) && slab.Length == slabSize
                && issued == old(issued) + {slab} && live == old(live) + 1
    {
      if live == capacity {
        slab := null;
      } else {
        slab := new Block[slabSize];
        issued := issued + {slab};
        live := live + 1;
      }
    }

    /** Takes back a slab that was handed out. */
    method Free(slab: array<Block>)
      requires Valid()
      requires slab in issued
      modifies this
      ensures Valid()
      ensures issued == old(issued) - {slab} && live == old(live) - 1
    {
      issued := issued - {slab};
      live := live - 1;
    }
  }

  class Chunk {
    /** `ChunkAllocator`, the pool of slabs of BLOCKS_PER_CHUNK blocks. */
    const pool: PoolAllocator
    /** `mBlocks`: the slab this chunk holds, or null. */
    var blocks: array?<Block>
    /** Whether `mMesh` is active. */
    var meshActive: bool
    /** `mIsLoaded`. */
    var isLoaded: bool

    /** The chunk is loaded exactly when it holds a slab from its pool; only a loaded chunk has an active mesh. */
    ghost predicate Valid()
      reads this, pool
    {
      && pool.Valid()
      && pool.capacity == POOL_CAPACITY && pool.slabSize == BLOCKS_PER_CHUNK
      && (isLoaded <==> blocks != null)
      && (blocks != null ==> blocks in pool.issued)
      && (meshActive ==> isLoaded)
    }

    /** An unloaded chunk drawing on `pool`. */
    constructor (pool: PoolAllocator)
      requires pool.Valid()
      requires pool.capacity == POOL_CAPACITY && pool.slabSize == BLOCKS_PER_CHUNK
      ensures Valid() && this.pool == pool
      ensures !isLoaded && blocks == null && !meshActive
    {
      this.pool := pool;
      blocks := null;
      meshActive := false;
      isLoaded := false;
    }

    function IsLoaded(): (r: bool)
      requires Valid()
      reads this, pool
      ensures r <==> blocks != null
      ensures r ==> blocks.Length == BLOCKS_PER_CHUNK
    {
      isLoaded
    }

    /**
     * Takes a slab from the pool and sets every block to its default
     * state. Fails, changing nothing, when the pool is exhausted; a chunk
     * that is already loaded keeps its slab.
     */
    method Load() returns (ok: bool)
      requires Valid()
      modifies this, pool
      ensures Valid()
      ensures old(isLoaded) ==> ok && blocks == old(blocks) && pool.live == old(pool.live)
      ensures !old(isLoaded) ==> (ok <==> old(pool.live) < POOL_CAPACITY)
      ensures ok ==> IsLoaded()
      ensures !old(isLoaded) && ok ==>
                && fresh(blocks) && pool.live == old(pool.live) + 1
                && forall i :: 0 <= i < blocks.Length ==> blocks[i] == DefaultBlock
      ensures !old(isLoaded) && ok ==> pool.issued == old(pool.issued) + {blocks}
      ensures old(isLoaded) || !ok ==> pool.issued == old(pool.issued)
      ensures !ok ==> !isLoaded && blocks == null && pool.live == old(pool.live)
      ensures meshActive == old(meshActive)
    {
      if isLoaded {
        return true;
      }
      var slab := pool.Allocate();
      if slab == null {
        return false;
      }
      forall i | 0 <= i < slab.Length {
        slab[i] := DefaultBlock;
      }
      blocks := slab;
      isLoaded := true;
      ok := true;
    }

    /** Returns the slab to the pool and deactivates the mesh; nothing happens on an unloaded chunk. */
    method Unload()
      requires Valid()
      modifies this, pool
      ensures Valid()
      ensures !IsLoaded() && blocks == null && !meshActive
      ensures old(isLoaded) ==> pool.issued == old(pool.issued) - {old(blocks)} && pool.live == old(pool.live) - 1
      ensures !old(isLoaded) ==> pool.issued == old(pool.issued) && pool.live == old(pool.live)
    {
      if isLoaded {
        pool.Free(blocks);
        blocks := null;
        meshActive := false;
        isLoaded := false;
      }
    }
  }

  /** A `Load(); Unload();` cycle on an unloaded chunk leaves the pool's count of live slabs as it was. */
  method LoadUnloadCycle(c: Chunk)
    requires c.Valid() && !c.IsLoaded()
    modifies c, c.pool
    ensures c.Valid() && !c.IsLoaded()
    ensures c.pool.live == old(c.pool.live) && c.pool.issued == old(c.pool.issued)
  {
    var ok := c.Load();
    c.Unload();
  }

  /** With all 500 slabs in use a further `Load` fails and the pool is untouched. */
  method LoadWhenExhausted(c: Chunk)
    requires c.Valid() && !c.IsLoaded()
    requires c.pool.live == POOL_CAPACITY
    modifies c, c.pool
    ensures c.Valid() && !c.IsLoaded()
    ensures c.pool.live == POOL_CAPACITY
  {
    var ok := c.Load();
    assert !ok;
  }

  /**
   * Two chunks drawing on the one static pool: after both load, each holds
   * its own slab and both are still valid against the shared pool.
   */
  method LoadTwoSharingPool(a: Chunk, b: Chunk)
    requires a != b && a.pool == b.pool
    requires a.Valid() && b.Valid() && !a.IsLoaded() && !b.IsLoaded()
    requires a.pool.live + 2 <= POOL_CAPACITY
    modifies a, b, a.pool
    ensures a.Valid() && b.Valid() && a.IsLoaded() && b.IsLoaded()
    ensures a.blocks != b.blocks
    ensures a.pool.live == old(a.pool.live) + 2
  {
    var okA := a.Load();
    var okB := b.Load();
  }
}

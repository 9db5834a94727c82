/** The LRU caches in front of the store (pkg/store/cached_store.go): reads through them cannot be
    told from reads of the store itself. */
module Caching {
  import opened Basics
  import opened Lru
  import opened Store
  import StoreIndex

  type Block = (Bytes, Bytes)

  datatype Cache = Cache(headers: map<nat, Bytes>, blocks: map<nat, Block>)

  const EMPTY := Cache(map[], map[])

  /** Every cached entry is what the store holds. */
  ghost predicate Coherent(db: Db, cache: Cache) {
    && (forall h: nat :: h in cache.headers ==> GetHeader(db, h) == Some(cache.headers[h]))
    && (forall h: nat :: h in cache.blocks ==> GetBlockData(db, h) == Some(cache.blocks[h]))
  }

  function ReadHeader(db: Db, cache: Cache, height: nat): Option<Bytes> {
    if height in cache.headers then Some(cache.headers[height]) else GetHeader(db, height)
  }

  function ReadBlock(db: Db, cache: Cache, height: nat): Option<Block> {
    if height in cache.blocks then Some(cache.blocks[height]) else GetBlockData(db, height)
  }

  function AfterReadHeader(db: Db, cache: Cache, policy: Policy<nat>, height: nat): Cache {
    if height in cache.headers || GetHeader(db, height).None? then cache
    else cache.(headers := Add(cache.headers, policy, height, GetHeader(db, height).value))
  }

  function AfterReadBlock(db: Db, cache: Cache, forHeaders: Policy<nat>, forBlocks: Policy<nat>, height: nat): Cache {
    if height in cache.blocks || GetBlockData(db, height).None? then cache
    else
      var block := GetBlockData(db, height).value;
      Cache(Add(cache.headers, forHeaders, height, block.0), Add(cache.blocks, forBlocks, height, block))
  }

  function Invalidate(cache: Cache, lo: nat, hi: nat): Cache {
    Cache(map h | h in cache.headers && !(lo <= h <= hi) :: cache.headers[h],
          map h | h in cache.blocks && !(lo <= h <= hi) :: cache.blocks[h])
  }

  /** What each operation of the store leaves in the caches: rollback and pruning drop the heights
      they touched, batches go past the caches. */
  function AfterWrite(db: Db, sha: Digest, cache: Cache, op: StoreIndex.Op): Cache {
    match op
    case RollbackTo(t, aggregator) =>
      if Rollback(db, sha, t, aggregator).error.None? then Invalidate(cache, t + 1, Height(db).value) else cache
    case PruneTo(height) => Invalidate(cache, 1, height)
    case _ => cache
  }

  // ---------------------------------------------------------------- coherence

  lemma ReadsKeepCoherence(db: Db, cache: Cache, forHeaders: Policy<nat>, forBlocks: Policy<nat>, height: nat)
    requires Coherent(db, cache)
    ensures Coherent(db, AfterReadHeader(db, cache, forHeaders, height))
    ensures Coherent(db, AfterReadBlock(db, cache, forHeaders, forBlocks, height))
  {
    if GetHeader(db, height).Some? {
      AddKeeps(cache.headers, forHeaders, height, GetHeader(db, height).value);
    }
    if GetBlockData(db, height).Some? {
      AddKeeps(cache.headers, forHeaders, height, GetBlockData(db, height).value.0);
      AddKeeps(cache.blocks, forBlocks, height, GetBlockData(db, height).value);
    }
  }

  /** The caches do cache: a stored block that was read is there afterwards, and what is outside the
      range stays when a range is dropped. */
  lemma ReadsAreCached(db: Db, cache: Cache, forHeaders: Policy<nat>, forBlocks: Policy<nat>, height: nat)
    ensures GetHeader(db, height).Some? ==> height in AfterReadHeader(db, cache, forHeaders, height).headers
    ensures GetBlockData(db, height).Some? ==> height in AfterReadBlock(db, cache, forHeaders, forBlocks, height).blocks
    ensures forall lo: nat, hi: nat :: !(lo <= height <= hi) ==>
              && (height in Invalidate(cache, lo, hi).headers <==> height in cache.headers)
              && (height in Invalidate(cache, lo, hi).blocks <==> height in cache.blocks)
  {
    if GetHeader(db, height).Some? {
      AddKeeps(cache.headers, forHeaders, height, GetHeader(db, height).value);
    }
    if GetBlockData(db, height).Some? {
      AddKeeps(cache.blocks, forBlocks, height, GetBlockData(db, height).value);
    }
  }

  /** A database that agrees with `db` outside `lo`..`hi` stays coherent with what invalidation leaves. */
  lemma InvalidateKeepsCoherence(db: Db, after: Db, cache: Cache, lo: nat, hi: nat)
    requires Coherent(db, cache)
    requires forall h: nat :: !(lo <= h <= hi) ==> StoreIndex.SameAt(db, after, h)
    ensures Coherent(after, Invalidate(cache, lo, hi))
  {
    forall h: nat | !(lo <= h <= hi)
      ensures GetHeader(after, h) == GetHeader(db, h) && GetBlockData(after, h) == GetBlockData(db, h)
    {
      assert StoreIndex.SameAt(db, after, h);
    }
  }

  /** A batch that saves a block over a cached header or a cached block leaves it as it is. */
  predicate ReplacesNothing(cache: Cache, op: StoreIndex.Op) {
    op.Save? ==>
      && (op.height in cache.headers ==> cache.headers[op.height] == op.header)
      && (op.height in cache.blocks ==> cache.blocks[op.height] == (op.header, op.data))
  }

  /** A save past the caches leaves them coherent exactly when it does not replace a cached header
      or a cached block by a different one. */
  lemma SaveKeepsCoherenceIff(db: Db, sha: Digest, cache: Cache, height: nat, header: Bytes, data: Bytes, signature: Bytes)
    requires Coherent(db, cache)
    ensures
      Coherent(Apply(db, SaveOps(sha, height, header, data, signature)), cache) <==>
      ReplacesNothing(cache, StoreIndex.Save(height, header, data, signature))
  {
    var after := Apply(db, SaveOps(sha, height, header, data, signature));
    assert GetHeader(after, height) == Some(header) && GetBlockData(after, height) == Some((header, data));
    forall h: nat | h != height
      ensures GetHeader(after, h) == GetHeader(db, h) && GetBlockData(after, h) == GetBlockData(db, h)
    {
    }
  }

  lemma RollbackKeepsCoherence(db: Db, sha: Digest, cache: Cache, t: nat, aggregator: bool)
    requires Coherent(db, cache)
    ensures Coherent(Rollback(db, sha, t, aggregator).db,
                     AfterWrite(db, sha, cache, StoreIndex.RollbackTo(t, aggregator)))
  {
    var r := Rollback(db, sha, t, aggregator);
    if r.error.None? {
      forall h: nat | !(t + 1 <= h <= Height(db).value) ensures StoreIndex.SameAt(db, r.db, h) {
        StoreIndex.RollbackAtHeight(db, sha, t, aggregator, h);
      }
      InvalidateKeepsCoherence(db, r.db, cache, t + 1, Height(db).value);
    }
  }

  lemma PruneKeepsCoherence(db: Db, sha: Digest, cache: Cache, height: nat)
    requires Coherent(db, cache)
    ensures Coherent(PruneBlocks(db, sha, height), Invalidate(cache, 1, height))
  {
    var after := PruneBlocks(db, sha, height);
    forall h: nat | !(1 <= h <= height) ensures StoreIndex.SameAt(db, after, h) {
      if height > LastPruned(db) {
        StoreIndex.PruneAtHeight(db, sha, height, h);
      }
    }
    InvalidateKeepsCoherence(db, after, cache, 1, height);
  }

  lemma WriteKeepsCoherence(db: Db, sha: Digest, cache: Cache, op: StoreIndex.Op)
    requires Coherent(db, cache) && ReplacesNothing(cache, op)
    ensures Coherent(StoreIndex.Do(db, sha, op), AfterWrite(db, sha, cache, op))
  {
    match op
    case Save(h, header, data, signature) => SaveKeepsCoherenceIff(db, sha, cache, h, header, data, signature);
    case RollbackTo(t, aggregator) => RollbackKeepsCoherence(db, sha, cache, t, aggregator);
    case PruneTo(h) => PruneKeepsCoherence(db, sha, cache, h);
    case _ => OtherWritesKeepCoherence(db, sha, cache, op);
  }

  /** The other operations touch no header and no data. */
  lemma OtherWritesKeepCoherence(db: Db, sha: Digest, cache: Cache, op: StoreIndex.Op)
    requires Coherent(db, cache) && !op.Save? && !op.RollbackTo? && !op.PruneTo?
    ensures Coherent(StoreIndex.Do(db, sha, op), cache)
  {
  }

  // ---------------------------------------------------------------- transparency

  datatype Step =
    | GetHeaderAt(height: nat, policy: Policy<nat>)
    | GetBlockAt(height: nat, forHeaders: Policy<nat>, forBlocks: Policy<nat>)
    | Write(op: StoreIndex.Op)
    | ClearCache

  datatype Answer = HeaderIs(header: Option<Bytes>) | BlockIs(block: Option<Block>) | Nothing

  function PlainStep(db: Db, sha: Digest, step: Step): (Db, Answer) {
    match step
    case GetHeaderAt(h, _) => (db, HeaderIs(GetHeader(db, h)))
    case GetBlockAt(h, _, _) => (db, BlockIs(GetBlockData(db, h)))
    case Write(op) => (StoreIndex.Do(db, sha, op), Nothing)
    case ClearCache => (db, Nothing)
  }

  function CachedStep(db: Db, sha: Digest, cache: Cache, step: Step): (Cache, Answer) {
    match step
    case GetHeaderAt(h, policy) => (AfterReadHeader(db, cache, policy, h), HeaderIs(ReadHeader(db, cache, h)))
    case GetBlockAt(h, hp, bp) => (AfterReadBlock(db, cache, hp, bp, h), BlockIs(ReadBlock(db, cache, h)))
    case Write(op) => (AfterWrite(db, sha, cache, op), Nothing)
    case ClearCache => (EMPTY, Nothing)
  }

  /** The answers of the bare store to a run. */
  function PlainRun(db: Db, sha: Digest, steps: seq<Step>): (answers: seq<Answer>)
    ensures |answers| == |steps|
    decreases steps
  {
    if steps == [] then []
    else
      var p := PlainStep(db, sha, steps[0]);
      [p.1] + PlainRun(p.0, sha, steps[1..])
  }

  /** The answers of the cached store to the same run. */
  function CachedRun(db: Db, sha: Digest, cache: Cache, steps: seq<Step>): (answers: seq<Answer>)
    ensures |answers| == |steps|
    decreases steps
  {
    if steps == [] then []
    else
      var c := CachedStep(db, sha, cache, steps[0]);
      [c.1] + CachedRun(PlainStep(db, sha, steps[0]).0, sha, c.0, steps[1..])
  }

  /** No batch of the run replaces an entry that is cached at that moment by a different one. */
  predicate AllowedSteps(db: Db, sha: Digest, cache: Cache, steps: seq<Step>)
    decreases steps
  {
    steps == [] ||
    ((steps[0].Write? ==> ReplacesNothing(cache, steps[0].op)) &&
     AllowedSteps(PlainStep(db, sha, steps[0]).0, sha, CachedStep(db, sha, cache, steps[0]).0, steps[1..]))
  }

  /** Whatever the caches evict, a run of reads, batches, rollbacks and prunes gets the same answers
      from the cached store as from the store below it. */
  lemma {:induction false} CacheIsTransparent(db: Db, sha: Digest, cache: Cache, steps: seq<Step>)
    requires Coherent(db, cache) && AllowedSteps(db, sha, cache, steps)
    ensures CachedRun(db, sha, cache, steps) == PlainRun(db, sha, steps)
    decreases steps
  {
    if steps != [] {
      StepIsTransparent(db, sha, cache, steps[0]);
      CacheIsTransparent(PlainStep(db, sha, steps[0]).0, sha, CachedStep(db, sha, cache, steps[0]).0, steps[1..]);
    }
  }

  lemma StepIsTransparent(db: Db, sha: Digest, cache: Cache, step: Step)
    requires Coherent(db, cache) && (step.Write? ==> ReplacesNothing(cache, step.op))
    ensures CachedStep(db, sha, cache, step).1 == PlainStep(db, sha, step).1
    ensures Coherent(PlainStep(db, sha, step).0, CachedStep(db, sha, cache, step).0)
  {
    match step
    case GetHeaderAt(h, policy) => ReadsKeepCoherence(db, cache, policy, policy, h);
    case GetBlockAt(h, hp, bp) => ReadsKeepCoherence(db, cache, hp, bp, h);
    case Write(op) => WriteKeepsCoherence(db, sha, cache, op);
    case ClearCache =>
  }

  /** Reading a block and then saving another one at its height through a batch makes the next read
      return the old block. */
  lemma OverwriteIsHidden(
    db: Db, sha: Digest, policy: Policy<nat>, height: nat, header: Bytes, data: Bytes, signature: Bytes)
    requires GetBlockData(db, height).Some? && GetBlockData(db, height).value != (header, data)
    ensures
      var steps := [GetBlockAt(height, policy, policy), Write(StoreIndex.Save(height, header, data, signature)),
                    GetBlockAt(height, policy, policy)];
      && CachedRun(db, sha, EMPTY, steps)[2] == BlockIs(GetBlockData(db, height))
      && PlainRun(db, sha, steps)[2] == BlockIs(Some((header, data)))
  {
    var steps := [GetBlockAt(height, policy, policy), Write(StoreIndex.Save(height, header, data, signature)),
                  GetBlockAt(height, policy, policy)];
    var after := Apply(db, SaveOps(sha, height, header, data, signature));
    var cache := AfterReadBlock(db, EMPTY, policy, policy, height);
    assert steps[1..] == [steps[1], steps[2]] && steps[1..][1..] == [steps[2]];
    assert CachedRun(after, sha, cache, [steps[2]])[0] == BlockIs(GetBlockData(db, height));
    assert GetBlockData(after, height) == Some((header, data));
    assert PlainRun(after, sha, [steps[2]])[0] == BlockIs(Some((header, data)));
  }
}

module CachedStores {
  import opened Basics
  import opened Lru
  import opened Store
  import opened Caching
  import opened StoreObjects
  import StoreIndex

  class CachedStore {
    const store: DefaultStore
    var headerCache: map<nat, Bytes>
    var blockDataCache: map<nat, Block>

    constructor (store: DefaultStore)
      ensures this.store == store && View() == EMPTY
    {
      this.store := store;
      headerCache, blockDataCache := map[], map[];
    }

    ghost function View(): Cache
      reads this
    {
      Cache(headerCache, blockDataCache)
    }

    method GetHeader(height: nat, policy: Policy<nat>) returns (header: Option<Bytes>)
      modifies this
      ensures header == ReadHeader(store.db, old(View()), height)
      ensures View() == AfterReadHeader(store.db, old(View()), policy, height)
    {
      if height in headerCache {
        return Some(headerCache[height]);
      }
      header := Store.GetHeader(store.db, height);
      if header.None? {
        return None;
      }
      headerCache := Add(headerCache, policy, height, header.value);
    }

    method GetBlockData(height: nat, forHeaders: Policy<nat>, forBlocks: Policy<nat>) returns (block: Option<Block>)
      modifies this
      ensures block == ReadBlock(store.db, old(View()), height)
      ensures View() == AfterReadBlock(store.db, old(View()), forHeaders, forBlocks, height)
    {
      if height in blockDataCache {
        return Some(blockDataCache[height]);
      }
      block := Store.GetBlockData(store.db, height);
      if block.None? {
        return None;
      }
      blockDataCache := Add(blockDataCache, forBlocks, height, block.value);
      headerCache := Add(headerCache, forHeaders, height, block.value.0);
    }

    method InvalidateRange(fromHeight: nat, toHeight: nat)
      modifies this
      ensures View() == Invalidate(old(View()), fromHeight, toHeight)
    {
      var h := fromHeight;
      while h <= toHeight
        invariant fromHeight <= h
        invariant h <= toHeight + 1 || h == fromHeight
        invariant View() == if h == fromHeight then old(View()) else Invalidate(old(View()), fromHeight, h - 1)
      {
        headerCache := headerCache - {h};
        blockDataCache := blockDataCache - {h};
        h := h + 1;
      }
    }

    method ClearCache()
      modifies this
      ensures View() == EMPTY
    {
      headerCache, blockDataCache := map[], map[];
    }

    method Rollback(height: nat, aggregator: bool) returns (err: Option<StoreError>)
      modifies this, store
      ensures Attempt(err, store.db) == Store.Rollback(old(store.db), store.sha, height, aggregator)
      ensures View() == AfterWrite(old(store.db), store.sha, old(View()), StoreIndex.RollbackTo(height, aggregator))
    {
      var currentHeight := Height(store.db);
      if currentHeight.None? {
        return Some(BadHeightEntry);
      }
      err := store.Rollback(height, aggregator);
      if err.Some? {
        return err;
      }
      InvalidateRange(height + 1, currentHeight.value);
    }

    method PruneBlocks(height: nat)
      modifies this, store
      ensures store.db == Store.PruneBlocks(old(store.db), store.sha, height)
      ensures View() == AfterWrite(old(store.db), store.sha, old(View()), StoreIndex.PruneTo(height))
    {
      store.PruneBlocks(height);
      InvalidateRange(1, height);
    }
  }
}

/** Forced inclusion from DA (block/internal/da): the background prefetcher with its cache, and the
    retriever that hands out one event per epoch. The DA ledger itself never changes; what a call to
    the DA client answers may differ from call to call, but not contradict the ledger. */
module ForcedInclusion {
  import opened Basics
  import opened Epoch

  type Blob = Bytes

  /** A DA height's content, or what the cache holds of it. */
  datatype BlockData = BlockData(blobs: seq<Blob>, timestamp: nat)

  /** Answer of the DA client for one height. */
  datatype Answer = Success(block: BlockData) | NotFound(timestamp: nat) | FromFuture | Failed

  type Ledger = nat -> BlockData
  type Client = nat -> Answer

  /** The client may refuse, but it never lies about a height. */
  ghost predicate Honest(client: Client, ledger: Ledger) {
    forall h ::
      && (client(h).Success? ==> client(h).block == ledger(h))
      && (client(h).NotFound? ==> ledger(h) == BlockData([], client(h).timestamp))
  }

  function NonEmpty(blobs: seq<Blob>): seq<Blob> {
    Filter(b => b != [], blobs)
  }

  lemma {:induction false} NonEmptyTwice(blobs: seq<Blob>)
    ensures NonEmpty(NonEmpty(blobs)) == NonEmpty(blobs)
  {
    if blobs != [] {
      NonEmptyTwice(blobs[1..]);
      var kept := if blobs[0] != [] then [blobs[0]] else [];
      FilterAppend((b: Blob) => b != [], kept, NonEmpty(blobs[1..]));
      assert NonEmpty(kept) == kept;
    }
  }

  /** A cached or fetched block stands for the ledger's: same timestamp, same non-empty blobs. */
  ghost predicate Faithful(b: BlockData, truth: BlockData) {
    NonEmpty(b.blobs) == NonEmpty(truth.blobs) && b.timestamp == truth.timestamp
  }

  ghost predicate Coherent(cache: map<nat, BlockData>, ledger: Ledger) {
    forall h :: h in cache ==> Faithful(cache[h], ledger(h))
  }

  // ---------------------------------------------------------------- async_block_retriever.go

  /** What prefetching stores for an answer; None when it stores nothing. */
  function ToCache(a: Answer): Option<BlockData> {
    match a
    case Success(b) => Some(BlockData(NonEmpty(b.blobs), b.timestamp))
    case NotFound(t) => Some(BlockData([], t))
    case _ => None
  }

  method KeepNonEmpty(blobs: seq<Blob>) returns (kept: seq<Blob>)
    ensures kept == NonEmpty(blobs)
  {
    kept := [];
    for i := 0 to |blobs|
      invariant kept == NonEmpty(blobs[..i])
    {
      FilterAppend((x: Blob) => x != [], blobs[..i], [blobs[i]]);
      assert blobs[..i + 1] == blobs[..i] + [blobs[i]];
      if |blobs[i]| > 0 {
        kept := kept + [blobs[i]];
      }
    }
    assert blobs[..|blobs|] == blobs;
  }

  /** `h` is less than `window` steps above `current`, counting on past 2^64 at 0. */
  predicate InWindow(current: u64, window: nat, h: nat) {
    h < U64 && (if h >= current then h - current else h + U64 - current) < window
  }

  lemma WindowGrows(current: u64, i: nat)
    requires i < U64
    ensures forall h: nat :: InWindow(current, i + 1, h) <==> InWindow(current, i, h) || h == W(current + i)
  {
  }

  /** The cache after a prefetch round at `current`: what was cached, and the answers for the window,
      less the blocks more than a window below. */
  ghost predicate Prefetched(
    before: map<nat, BlockData>, after: map<nat, BlockData>, current: u64, window: nat, client: Client)
  {
    && (forall h: nat :: h in after <==>
          h + window >= current && (h in before || (InWindow(current, window, h) && ToCache(client(h)).Some?)))
    && (forall h: nat :: h in after ==>
          if h in before then after[h] == before[h] else ToCache(client(h)) == Some(after[h]))
  }

  class AsyncBlockRetriever {
    const hasNamespace: bool
    const daStartHeight: u64
    const prefetchWindow: u64
    var cache: map<nat, BlockData>
    var currentDAHeight: u64

    constructor (hasNamespace: bool, daStartHeight: u64, prefetchWindow: u64)
      ensures this.hasNamespace == hasNamespace && this.daStartHeight == daStartHeight
      ensures this.prefetchWindow == (if prefetchWindow == 0 then 10 else prefetchWindow)
      ensures cache == map[] && currentDAHeight == daStartHeight
    {
      this.hasNamespace, this.daStartHeight := hasNamespace, daStartHeight;
      this.prefetchWindow := if prefetchWindow == 0 then 10 else prefetchWindow;
      cache, currentDAHeight := map[], daStartHeight;
    }

    /** The height only moves forward. */
    method UpdateCurrentHeight(height: u64)
      modifies `currentDAHeight
      ensures currentDAHeight == Max(old(currentDAHeight), height)
    {
      if height <= currentDAHeight {
        return;
      }
      currentDAHeight := height;
    }

    method GetCachedBlock(daHeight: nat) returns (r: Result<Option<BlockData>, ()>)
      ensures !hasNamespace ==> r == Ok(None)
      ensures hasNamespace && daHeight < daStartHeight ==> r == Err(())
      ensures hasNamespace && daHeight >= daStartHeight ==>
                r == Ok(if daHeight in cache then Some(cache[daHeight]) else None)
    {
      if !hasNamespace {
        return Ok(None);
      }
      if daHeight < daStartHeight {
        return Err(());
      }
      if daHeight !in cache {
        return Ok(None);
      }
      return Ok(Some(cache[daHeight]));
    }

    method FetchAndCacheBlock(height: nat, client: Client)
      modifies `cache
      ensures cache == match ToCache(client(height))
                       case Some(b) => old(cache)[height := b]
                       case None => old(cache)
    {
      var answer := client(height);
      match answer
      case FromFuture =>
      case Failed =>
      case NotFound(t) =>
        cache := cache[height := BlockData([], t)];
      case Success(b) =>
        var blobs := KeepNonEmpty(b.blobs);
        cache := cache[height := BlockData(blobs, b.timestamp)];
    }

    /** Removes the blocks more than a window below `currentHeight`. */
    method CleanupOldBlocks(currentHeight: nat)
      modifies `cache
      ensures cache == map h | h in old(cache) && h + prefetchWindow >= currentHeight :: old(cache)[h]
    {
      if currentHeight < prefetchWindow {
        assert cache == map h | h in cache && h + prefetchWindow >= currentHeight :: cache[h];
        return;
      }
      var threshold := currentHeight - prefetchWindow;
      ghost var was := cache;
      var keys := cache.Keys;
      while keys != {}
        invariant keys <= was.Keys
        invariant forall h :: h in cache ==> h in was && cache[h] == was[h]
        invariant forall h :: h in was ==> (h in cache <==> h in keys || h >= threshold)
        decreases |keys|
      {
        var h :| h in keys;
        keys := keys - {h};
        if h < threshold {
          cache := cache - {h};
        }
      }
    }

    /** Fills the window from the current height and drops what lies far below it. Blocks already
        cached are kept as they are. */
    method PrefetchBlocks(client: Client)
      modifies `cache
      ensures !hasNamespace ==> cache == old(cache)
      ensures hasNamespace ==> Prefetched(old(cache), cache, currentDAHeight, prefetchWindow, client)
    {
      if !hasNamespace {
        return;
      }
      var currentHeight := currentDAHeight;
      for i := 0 to prefetchWindow
        invariant forall h: nat :: h in cache <==>
          h in old(cache) || (InWindow(currentHeight, i, h) && ToCache(client(h)).Some?)
        invariant forall h :: h in cache ==>
          if h in old(cache) then cache[h] == old(cache)[h] else ToCache(client(h)) == Some(cache[h])
      {
        var target := W(currentHeight + i);
        WindowGrows(currentHeight, i);
        if target !in cache {
          FetchAndCacheBlock(target, client);
        }
      }
      CleanupOldBlocks(currentHeight);
    }
  }

  /** Whatever an honest client answers is cached faithfully, so prefetching keeps coherence. */
  lemma PrefetchKeepsCoherence(before: map<nat, BlockData>, after: map<nat, BlockData>, client: Client, ledger: Ledger)
    requires Coherent(before, ledger) && Honest(client, ledger)
    requires Fed(before, after, client)
    ensures Coherent(after, ledger)
  {
    forall h | h in after ensures Faithful(after[h], ledger(h)) {
      if h !in before {
        NonEmptyTwice(ledger(h).blobs);
      }
    }
  }

  /** `after` holds nothing but entries of `before` and answers of the client: a whole prefetch round, a
      single fetch of one, or a cleanup. */
  ghost predicate Fed(before: map<nat, BlockData>, after: map<nat, BlockData>, client: Client) {
    forall h: nat :: h in after ==> if h in before then after[h] == before[h] else ToCache(client(h)) == Some(after[h])
  }

  /** Whatever a query finds is coherent: so is every state of the cache that prefetching with honest
      clients goes through, from the empty one on and within its rounds. */
  lemma {:induction false} PrefetchedStatesAreCoherent(
    caches: seq<map<nat, BlockData>>, clients: nat -> Client, ledger: Ledger, i: nat)
    requires i < |caches| && caches[0] == map[] && forall k: nat :: Honest(clients(k), ledger)
    requires forall k: nat :: k + 1 < |caches| ==> Fed(caches[k], caches[k + 1], clients(k))
    ensures Coherent(caches[i], ledger)
    decreases i
  {
    if i > 0 {
      PrefetchedStatesAreCoherent(caches, clients, ledger, i - 1);
      assert Fed(caches[i - 1], caches[i - 1 + 1], clients(i - 1));
      PrefetchKeepsCoherence(caches[i - 1], caches[i], clients(i - 1), ledger);
    }
  }

  // ---------------------------------------------------------------- forced_inclusion_retriever.go

  datatype Event = Event(timestamp: nat, startDaHeight: nat, endDaHeight: nat, txs: seq<Blob>)

  datatype RetrieveError = NotConfigured | BeforeStart | HeightFromFuture(height: nat)

  /** Non-empty blobs of the ledger from `lo` to `hi`, in DA order. */
  function BlobsBetween(ledger: Ledger, lo: nat, hi: int): seq<Blob>
    decreases hi - lo
  {
    if hi < lo then [] else BlobsBetween(ledger, lo, hi - 1) + NonEmpty(ledger(hi).blobs)
  }

  /** Latest timestamp of the ledger from `lo` to `hi`. */
  function LatestBetween(ledger: Ledger, lo: nat, hi: int): nat
    decreases hi - lo
  {
    if hi < lo then 0 else Max(LatestBetween(ledger, lo, hi - 1), ledger(hi).timestamp)
  }

  function EpochEvent(ledger: Ledger, start: nat, end: nat): Event {
    Event(LatestBetween(ledger, start, end), start, end, BlobsBetween(ledger, start, end))
  }

  lemma {:induction false} BlobsSplit(ledger: Ledger, lo: nat, mid: nat, hi: int)
    requires lo <= mid <= hi + 1
    ensures BlobsBetween(ledger, lo, hi) == BlobsBetween(ledger, lo, mid - 1) + BlobsBetween(ledger, mid, hi)
    decreases hi - mid
  {
    if mid <= hi {
      BlobsSplit(ledger, lo, mid, hi - 1);
    }
  }

  /** The prefetch cache as each height of a query finds it: prefetching goes on between the lookups. */
  type Views = nat -> map<nat, BlockData>

  ghost predicate AllCoherent(views: Views, ledger: Ledger) {
    forall h: nat :: Coherent(views(h), ledger)
  }

  /** What the lookups of one query find. */
  function Hits(views: Views, lo: nat, hi: nat): map<nat, BlockData> {
    map h: nat | lo <= h <= hi && h in views(h) :: views(h)[h]
  }

  lemma HitsAreCoherent(views: Views, ledger: Ledger, lo: nat, hi: nat)
    requires AllCoherent(views, ledger)
    ensures Coherent(Hits(views, lo, hi), ledger)
  {
    forall h: nat | h in Hits(views, lo, hi) ensures Faithful(Hits(views, lo, hi)[h], ledger(h)) {
      assert Coherent(views(h), ledger);
    }
  }

  /** What one retrieval gets to see of height `h`: the cached block, else the client's answer. */
  function Seen(cache: map<nat, BlockData>, client: Client, h: nat): Option<BlockData> {
    if h in cache then Some(cache[h])
    else match client(h)
         case Success(b) => Some(b)
         case NotFound(t) => Some(BlockData([], t))
         case _ => None
  }

  function SeenBlobs(cache: map<nat, BlockData>, client: Client, lo: nat, hi: int): seq<Blob>
    decreases hi - lo
  {
    if hi < lo then []
    else SeenBlobs(cache, client, lo, hi - 1)
         + (match Seen(cache, client, hi) case Some(b) => NonEmpty(b.blobs) case None => [])
  }

  function SeenLatest(cache: map<nat, BlockData>, client: Client, lo: nat, hi: int): nat
    decreases hi - lo
  {
    if hi < lo then 0
    else Max(SeenLatest(cache, client, lo, hi - 1),
             match Seen(cache, client, hi) case Some(b) => b.timestamp case None => 0)
  }

  /** When every height is seen, a coherent cache and an honest client show exactly the ledger. */
  lemma {:induction false} SeenIsLedger(cache: map<nat, BlockData>, client: Client, ledger: Ledger, lo: nat, hi: int)
    requires Coherent(cache, ledger) && Honest(client, ledger)
    requires forall h :: lo <= h <= hi ==> Seen(cache, client, h).Some?
    ensures SeenBlobs(cache, client, lo, hi) == BlobsBetween(ledger, lo, hi)
    ensures SeenLatest(cache, client, lo, hi) == LatestBetween(ledger, lo, hi)
    decreases hi - lo
  {
    if lo <= hi {
      SeenIsLedger(cache, client, ledger, lo, hi - 1);
      assert Seen(cache, client, hi).Some?;
    }
  }

  function Heights(lo: nat, hi: int): (s: seq<nat>)
    ensures |s| == (if hi < lo then 0 else hi - lo + 1) && forall i :: 0 <= i < |s| ==> s[i] == lo + i
    decreases hi - lo
  {
    if hi < lo then [] else Heights(lo, hi - 1) + [hi]
  }

  method CollectHeights(start: nat, end: nat) returns (heights: seq<nat>)
    requires start <= end
    ensures heights == Heights(start, end)
  {
    heights := [];
    for h := start to end + 1
      invariant heights == Heights(start, h - 1)
    {
      heights := heights + [h];
    }
  }

  /** Heights `lo`..`hi` have been looked up: the hits and the others. */
  ghost predicate LookedUp(hits: map<nat, BlockData>, lo: nat, hi: int, cached: map<nat, BlockData>, missing: seq<nat>) {
    && (forall h :: h in cached <==> h in hits && lo <= h <= hi)
    && (forall h :: h in cached ==> cached[h] == hits[h])
    && missing == MissingBetween(hits, lo, hi)
  }

  lemma NothingLookedUp(hits: map<nat, BlockData>, lo: nat)
    ensures LookedUp(hits, lo, lo - 1, map[], [])
  {
  }

  lemma AllLookedUp(views: Views, lo: nat, hi: nat, cached: map<nat, BlockData>, missing: seq<nat>)
    requires LookedUp(Hits(views, lo, hi), lo, hi, cached, missing)
    ensures cached == Hits(views, lo, hi) && missing == MissingBetween(cached, lo, hi)
  {
    assert cached == Hits(views, lo, hi);
  }

  lemma LookedUpNext(hits: map<nat, BlockData>, lo: nat, h: nat, cached: map<nat, BlockData>, missing: seq<nat>)
    requires lo <= h && LookedUp(hits, lo, h - 1, cached, missing)
    ensures h in hits ==> LookedUp(hits, lo, h, cached[h := hits[h]], missing)
    ensures h !in hits ==> LookedUp(hits, lo, h, cached, missing + [h])
  {
    assert missing + [] == missing;
  }

  class ForcedInclusionRetriever {
    const hasNamespace: bool
    const daStartHeight: u64
    const daEpochSize: u64
    const fetcher: AsyncBlockRetriever

    ghost predicate Valid() {
      && fetcher.hasNamespace == hasNamespace && fetcher.daStartHeight == daStartHeight
      && fetcher.prefetchWindow == WindowOf(daEpochSize)
    }

    constructor (hasNamespace: bool, daStartHeight: u64, daEpochSize: u64)
      ensures Valid() && fresh(fetcher) && fetcher.cache == map[]
      ensures this.hasNamespace == hasNamespace && this.daStartHeight == daStartHeight && this.daEpochSize == daEpochSize
    {
      this.hasNamespace, this.daStartHeight, this.daEpochSize := hasNamespace, daStartHeight, daEpochSize;
      fetcher := new AsyncBlockRetriever(hasNamespace, daStartHeight, W(daEpochSize * 2));
    }

    method LookUpOne(h: nat, views: Views, ghost start: nat, ghost end: nat) returns (block: Option<BlockData>)
      requires Valid() && hasNamespace && daStartHeight <= start <= h <= end
      modifies fetcher`cache
      ensures var hits := Hits(views, start, end); block == if h in hits then Some(hits[h]) else None
    {
      fetcher.cache := views(h);
      var r := fetcher.GetCachedBlock(h);
      return if r.Err? then None else r.value;
    }

    method LookUpNext(h: nat, views: Views, before: map<nat, BlockData>, missed: seq<nat>, ghost start: nat, ghost end: nat)
      returns (cached: map<nat, BlockData>, missing: seq<nat>)
      requires Valid() && hasNamespace && daStartHeight <= start <= h <= end
      requires LookedUp(Hits(views, start, end), start, h - 1, before, missed)
      modifies fetcher`cache
      ensures LookedUp(Hits(views, start, end), start, h, cached, missing)
    {
      var block := LookUpOne(h, views, start, end);
      LookedUpNext(Hits(views, start, end), start, h, before, missed);
      return if block.None? then before else before[h := block.value], if block.None? then missed + [h] else missed;
    }

    /** Splits the heights of an epoch into cached blocks and missing heights. */
    method LookUp(heights: seq<nat>, views: Views, ghost start: nat, ghost end: nat)
      returns (cached: map<nat, BlockData>, missing: seq<nat>)
      requires Valid() && hasNamespace && daStartHeight <= start <= end && heights == Heights(start, end)
      modifies fetcher`cache
      ensures cached == Hits(views, start, end) && missing == MissingBetween(cached, start, end)
    {
      cached, missing := map[], [];
      NothingLookedUp(Hits(views, start, end), start);
      for i := 0 to |heights|
        invariant LookedUp(Hits(views, start, end), start, start + i - 1, cached, missing)
      {
        cached, missing := LookUpNext(heights[i], views, cached, missing, start, end);
      }
      AllLookedUp(views, start, end, cached, missing);
    }

    /** Fetches the missing heights one by one; a height from the future ends the attempt. */
    method FetchMissing(missing: seq<nat>, client: Client)
      returns (fetched: map<nat, BlockData>, failed: bool, future: Option<nat>)
      ensures future.Some? ==>
                exists i :: 0 <= i < |missing| && missing[i] == future.value && client(missing[i]).FromFuture?
                            && forall j :: 0 <= j < i ==> !client(missing[j]).FromFuture?
      ensures future.None? ==>
                && (forall h :: h in missing ==> !client(h).FromFuture?)
                && (forall h :: h in fetched <==> h in missing && Seen(map[], client, h).Some?)
                && (forall h :: h in fetched ==> Seen(map[], client, h) == Some(fetched[h]))
                && (failed <==> exists h :: h in missing && client(h).Failed?)
    {
      fetched, failed, future := map[], false, None;
      for i := 0 to |missing|
        invariant forall j :: 0 <= j < i ==> !client(missing[j]).FromFuture?
        invariant forall h :: h in fetched <==> h in missing[..i] && Seen(map[], client, h).Some?
        invariant forall h :: h in fetched ==> Seen(map[], client, h) == Some(fetched[h])
        invariant failed <==> exists j :: 0 <= j < i && client(missing[j]).Failed?
      {
        var h := missing[i];
        assert missing[..i + 1] == missing[..i] + [h];
        match client(h)
        case FromFuture =>
          future := Some(h);
          return;
        case NotFound(t) =>
          fetched := fetched[h := BlockData([], t)];
        case Failed =>
          failed := true;
        case Success(b) =>
          fetched := fetched[h := b];
      }
      assert missing[..|missing|] == missing;
    }

    /** Gathers blobs and the latest timestamp in height order, cached blocks first. */
    method Gather(heights: seq<nat>, cached: map<nat, BlockData>, fetched: map<nat, BlockData>,
                  ghost cache: map<nat, BlockData>, client: Client, ghost start: nat, ghost end: nat)
      returns (txs: seq<Blob>, timestamp: nat)
      requires start <= end && heights == Heights(start, end)
      requires forall h :: start <= h <= end ==>
                 Seen(cache, client, h) == if h in cached then Some(cached[h])
                                           else if h in fetched then Some(fetched[h]) else None
      ensures txs == SeenBlobs(cache, client, start, end) && timestamp == SeenLatest(cache, client, start, end)
    {
      txs, timestamp := [], 0;
      for i := 0 to |heights|
        invariant txs == SeenBlobs(cache, client, start, start + i - 1)
        invariant timestamp == SeenLatest(cache, client, start, start + i - 1)
      {
        var h := heights[i];
        var block: Option<BlockData> := None;
        if h in cached {
          block := Some(cached[h]);
        } else if h in fetched {
          block := Some(fetched[h]);
        }
        assert Seen(cache, client, h) == block;
        if block.Some? {
          var blobs := KeepNonEmpty(block.value.blobs);
          txs := txs + blobs;
          if block.value.timestamp > timestamp {
            timestamp := block.value.timestamp;
          }
        }
      }
    }

    method RetrieveEpoch(start: nat, end: nat, client: Client, views: Views, ghost ledger: Ledger)
      returns (r: Result<Event, RetrieveError>)
      requires Valid() && hasNamespace && daStartHeight <= start <= end
      requires Honest(client, ledger) && AllCoherent(views, ledger)
      modifies fetcher`cache
      ensures AtEpochEnd(Hits(views, start, end), client, ledger, start, end, r)
    {
      var heights := CollectHeights(start, end);
      var cached, missing := LookUp(heights, views, start, end);
      HitsAreCoherent(views, ledger, start, end);
      var fetched, failed, future := FetchMissing(missing, client);
      if future.Some? {
        FirstMissingFuture(cached, client, start, end, future.value);
        return Err(HeightFromFuture(future.value));
      }
      MissingMembers(cached, start, end);
      var txs, timestamp := Gather(heights, cached, fetched, cached, client, start, end);
      EpochAnswer(cached, client, ledger, start, end, failed);
      return Ok(if failed then Event(timestamp, end, end, []) else Event(timestamp, start, end, txs));
    }

    /** Outside an epoch end nothing is retrieved. At an epoch end the answer is the complete epoch
        when every height is cached or answered, an error when a missing height lies in the future,
        and otherwise an empty event, so that the epoch is retried. It is never a partial epoch,
        however prefetching changes the cache between the lookups. The loop over an epoch that ends
        at the last 64-bit height does not end. */
    method RetrieveForcedIncludedTxs(daHeight: u64, client: Client, views: Views, ghost ledger: Ledger)
      returns (r: Result<Event, RetrieveError>)
      requires Valid() && Honest(client, ledger) && AllCoherent(views, ledger)
      requires hasNamespace && daHeight >= daStartHeight && daHeight == U64 - 1 ==>
                 CalculateEpochBoundaries(daHeight, daStartHeight, daEpochSize).end != daHeight
      modifies fetcher`cache, fetcher`currentDAHeight
      ensures !hasNamespace ==> r == Err(NotConfigured)
      ensures hasNamespace && daHeight < daStartHeight ==> r == Err(BeforeStart)
      ensures hasNamespace && daHeight >= daStartHeight ==>
        var b := CalculateEpochBoundaries(daHeight, daStartHeight, daEpochSize);
        if daHeight != b.end then r == Ok(Event(0, daHeight, daHeight, []))
        else AtEpochEnd(Hits(views, b.start, b.end), client, ledger, b.start, b.end, r)
    {
      if !hasNamespace {
        return Err(NotConfigured);
      }
      if daHeight < daStartHeight {
        return Err(BeforeStart);
      }
      var b := CalculateEpochBoundaries(daHeight, daStartHeight, daEpochSize);
      fetcher.UpdateCurrentHeight(daHeight);
      if daHeight != b.end {
        return Ok(Event(0, daHeight, daHeight, []));
      }
      if daEpochSize > 0 {
        StartExact(daHeight, daStartHeight, daEpochSize);
      }
      r := RetrieveEpoch(b.start, b.end, client, views, ledger);
    }
  }

  /** The prefetch window of a retriever: twice the epoch size in 64 bits, and 10 for 0. */
  function WindowOf(daEpochSize: u64): u64 {
    if W(daEpochSize * 2) == 0 then 10 else W(daEpochSize * 2)
  }

  /** Everything cached between `first` and `last` is still cached, unchanged. */
  ghost predicate StillCached(before: map<nat, BlockData>, after: map<nat, BlockData>, first: nat, last: nat) {
    forall h: nat :: h in before && first <= h <= last ==> h in after && after[h] == before[h]
  }

  /** A prefetch round of a retriever keeps every cached block from the start of the current epoch
      on, for epochs of less than 2^63 heights. */
  lemma PrefetchKeepsCurrentEpoch(
    r: ForcedInclusionRetriever, current: u64, before: map<nat, BlockData>, after: map<nat, BlockData>, client: Client)
    requires r.Valid() && 1 <= r.daEpochSize < I64 && r.daStartHeight <= current
    requires Prefetched(before, after, current, r.fetcher.prefetchWindow, client)
    ensures
      var b := CalculateEpochBoundaries(current, r.daStartHeight, r.daEpochSize);
      StillCached(before, after, b.start, current) && (b.end >= current ==> StillCached(before, after, b.start, b.end))
  {
    StartExact(current, r.daStartHeight, r.daEpochSize);
  }

  /** Over a whole epoch that fits 64 bits: no prefetch round at any of its heights drops any of its
      cached blocks if and only if the size is below 2^63, or the largest 64-bit number. */
  lemma EpochSurvivesPrefetchIff(first: u64, size: u64)
    requires size >= 1 && first + size <= U64
    ensures
      (forall current: u64, before, after, client ::
        first <= current < first + size && Prefetched(before, after, current, WindowOf(size), client) ==>
          StillCached(before, after, first, first + size - 1))
      <==> size < I64 || size == U64 - 1
  {
    if size < I64 || size == U64 - 1 {
      WindowCoversIff(size);
    } else {
      WindowCoversIff(size);
      var current: u64 := first + size - 1;
      var block := BlockData([], 0);
      var lowest: nat := first;
      var before: map<nat, BlockData>, after: map<nat, BlockData> := map[lowest := block], map[];
      var client: Client := h => FromFuture;
      assert Prefetched(before, after, current, WindowOf(size), client);
      assert lowest in before && lowest !in after;
      assert !StillCached(before, after, first, first + size - 1);
    }
  }

  lemma WindowCoversIff(size: u64)
    requires size >= 1
    ensures WindowOf(size) >= size - 1 <==> size < I64 || size == U64 - 1
  {
    assert size >= I64 ==> W(size * 2) == size * 2 - U64;
  }

  function MissingBetween(cache: map<nat, BlockData>, lo: nat, hi: int): seq<nat>
    decreases hi - lo
  {
    if hi < lo then [] else MissingBetween(cache, lo, hi - 1) + (if hi in cache then [] else [hi])
  }

  lemma {:induction false} MissingMembers(cache: map<nat, BlockData>, lo: nat, hi: int)
    ensures forall h :: h in MissingBetween(cache, lo, hi) <==> lo <= h <= hi && h !in cache
    ensures forall i, j :: 0 <= i < j < |MissingBetween(cache, lo, hi)| ==>
              MissingBetween(cache, lo, hi)[i] < MissingBetween(cache, lo, hi)[j]
    decreases hi - lo
  {
    if lo <= hi {
      MissingMembers(cache, lo, hi - 1);
      var before := MissingBetween(cache, lo, hi - 1);
      assert forall i :: 0 <= i < |before| ==> before[i] in before;
    }
  }

  ghost predicate Missing(cache: map<nat, BlockData>, lo: nat, hi: nat, h: nat) {
    lo <= h <= hi && h !in cache
  }

  /** The missing heights are in increasing order, so the first one answered "from the future"
      is the lowest such height. */
  lemma FirstMissingFuture(cache: map<nat, BlockData>, client: Client, lo: nat, hi: nat, f: nat)
    requires
      var missing := MissingBetween(cache, lo, hi);
      exists i :: 0 <= i < |missing| && missing[i] == f && client(missing[i]).FromFuture?
                  && forall j :: 0 <= j < i ==> !client(missing[j]).FromFuture?
    ensures Missing(cache, lo, hi, f) && client(f).FromFuture?
    ensures forall h: nat :: Missing(cache, lo, hi, h) && h < f ==> !client(h).FromFuture?
  {
    MissingMembers(cache, lo, hi);
    assert f in MissingBetween(cache, lo, hi);
  }

  ghost predicate AtEpochEnd(
      cache: map<nat, BlockData>, client: Client, ledger: Ledger, start: nat, end: nat, r: Result<Event, RetrieveError>)
  {
    if exists h :: Missing(cache, start, end, h) && client(h).FromFuture? then
      r.Err? && r.error.HeightFromFuture?
      && Missing(cache, start, end, r.error.height) && client(r.error.height).FromFuture?
      && forall h: nat :: Missing(cache, start, end, h) && h < r.error.height ==> !client(h).FromFuture?
    else if exists h :: Missing(cache, start, end, h) && client(h).Failed? then
      r == Ok(Event(SeenLatest(cache, client, start, end), end, end, []))
    else r == Ok(EpochEvent(ledger, start, end))
  }

  /** Without a height from the future the answer is the epoch, or empty when a fetch failed. */
  lemma EpochAnswer(cache: map<nat, BlockData>, client: Client, ledger: Ledger, start: nat, end: nat, failed: bool)
    requires start <= end && Honest(client, ledger) && Coherent(cache, ledger)
    requires forall h :: h in MissingBetween(cache, start, end) ==> !client(h).FromFuture?
    requires failed <==> exists h :: h in MissingBetween(cache, start, end) && client(h).Failed?
    ensures
      var t := SeenLatest(cache, client, start, end);
      AtEpochEnd(cache, client, ledger, start, end,
        Ok(if failed then Event(t, end, end, []) else Event(t, start, end, SeenBlobs(cache, client, start, end))))
  {
    MissingFates(cache, client, start, end, failed);
    if !failed {
      AllSeen(cache, client, start, end);
      SeenIsLedger(cache, client, ledger, start, end);
    }
  }

  lemma MissingFates(cache: map<nat, BlockData>, client: Client, start: nat, end: nat, failed: bool)
    requires forall h :: h in MissingBetween(cache, start, end) ==> !client(h).FromFuture?
    requires failed <==> exists h :: h in MissingBetween(cache, start, end) && client(h).Failed?
    ensures forall h :: Missing(cache, start, end, h) ==> !client(h).FromFuture?
    ensures failed <==> exists h :: Missing(cache, start, end, h) && client(h).Failed?
  {
    MissingMembers(cache, start, end);
    forall h: nat ensures Missing(cache, start, end, h) <==> h in MissingBetween(cache, start, end) {
    }
  }

  lemma AllSeen(cache: map<nat, BlockData>, client: Client, start: nat, end: nat)
    requires forall h :: Missing(cache, start, end, h) ==> !client(h).FromFuture? && !client(h).Failed?
    ensures forall h :: start <= h <= end ==> Seen(cache, client, h).Some?
  {
    forall h: nat | start <= h <= end ensures Seen(cache, client, h).Some? {
      assert h !in cache ==> Missing(cache, start, end, h);
    }
  }

  // ---------------------------------------------------------------- delivery over many queries

  /** The boundary computation of a retriever, as a value. */
  function BoundariesOf(daStartHeight: u64, daEpochSize: u64): u64 -> Boundaries {
    (h: u64) => CalculateEpochBoundaries(h, daStartHeight, daEpochSize)
  }

  /** What the query at height `h` delivers when nothing goes wrong. */
  function Delivery(ledger: Ledger, bounds: u64 -> Boundaries, h: u64): seq<Blob> {
    if h == bounds(h).end then BlobsBetween(ledger, bounds(h).start, bounds(h).end) else []
  }

  /** Deliveries of the queries at `lo`..`hi`, each height once, in increasing order. */
  function Delivered(ledger: Ledger, bounds: u64 -> Boundaries, lo: u64, hi: int): seq<Blob>
    requires hi < U64
    decreases hi - lo
  {
    if hi < lo then [] else Delivered(ledger, bounds, lo, hi - 1) + Delivery(ledger, bounds, hi)
  }

  /** `first` starts an epoch of `size` heights. */
  ghost predicate EpochAt(bounds: u64 -> Boundaries, first: nat, size: nat) {
    && first + size < U64
    && forall h: u64 :: first <= h < first + size ==> bounds(h).start == first && bounds(h).end == first + size - 1
  }

  lemma EpochStarts(daStartHeight: u64, daEpochSize: u64, q: nat, first: nat)
    requires daEpochSize >= 1 && first == daStartHeight + q * daEpochSize && first + daEpochSize < U64
    ensures EpochAt(BoundariesOf(daStartHeight, daEpochSize), first, daEpochSize)
  {
    forall h: u64 | first <= h < first + daEpochSize
      ensures BoundariesOf(daStartHeight, daEpochSize)(h).start == first
      ensures BoundariesOf(daStartHeight, daEpochSize)(h).end == first + daEpochSize - 1
    {
      BoundariesAt(daStartHeight, daEpochSize, q, h - first, first);
    }
  }

  /** The queries of one epoch deliver nothing until its last height, ... */
  lemma {:induction false} QuietUntilEnd(ledger: Ledger, bounds: u64 -> Boundaries, lo: u64, first: nat, size: nat, r: nat)
    requires EpochAt(bounds, first, size) && lo <= first && r < size
    ensures Delivered(ledger, bounds, lo, first + r - 1) == Delivered(ledger, bounds, lo, first - 1)
  {
    if r > 0 {
      QuietUntilEnd(ledger, bounds, lo, first, size, r - 1);
      var h: u64 := first + r - 1;
      assert bounds(h).end == first + size - 1;
      assert Delivery(ledger, bounds, h) == [];
    }
  }

  /** ... and then the whole epoch. */
  lemma EpochDelivery(ledger: Ledger, bounds: u64 -> Boundaries, lo: u64, first: nat, size: nat)
    requires EpochAt(bounds, first, size) && lo <= first && size >= 1
    ensures Delivered(ledger, bounds, lo, first + size - 1)
            == Delivered(ledger, bounds, lo, first - 1) + BlobsBetween(ledger, first, first + size - 1)
  {
    QuietUntilEnd(ledger, bounds, lo, first, size, size - 1);
    var h: u64 := first + size - 1;
    assert bounds(h).start == first && bounds(h).end == h;
    assert Delivery(ledger, bounds, h) == BlobsBetween(ledger, first, h);
  }

  lemma OneMoreEpoch(ledger: Ledger, bounds: u64 -> Boundaries, lo: u64, first: nat, size: nat)
    requires EpochAt(bounds, first, size) && lo <= first && size >= 1 && first + size < U64
    requires Delivered(ledger, bounds, lo, first - 1) == BlobsBetween(ledger, lo, first - 1)
    ensures Delivered(ledger, bounds, lo, first + size - 1) == BlobsBetween(ledger, lo, first + size - 1)
  {
    EpochDelivery(ledger, bounds, lo, first, size);
    BlobsSplit(ledger, lo, first, first + size - 1);
  }

  /** Forced inclusion delivers exactly once: over any `k` whole epochs, the queries together yield
      every non-empty blob of those epochs, once each and in DA order. */
  lemma {:induction false} DeliveredExactlyOnce(ledger: Ledger, daStartHeight: u64, daEpochSize: u64, k: nat, next: nat)
    requires daEpochSize >= 1 && next == daStartHeight + k * daEpochSize && next < U64
    ensures Delivered(ledger, BoundariesOf(daStartHeight, daEpochSize), daStartHeight, next - 1)
            == BlobsBetween(ledger, daStartHeight, next - 1)
    decreases k
  {
    if k > 0 {
      var first := EpochBefore(daStartHeight, daEpochSize, k, next);
      DeliveredExactlyOnce(ledger, daStartHeight, daEpochSize, k - 1, first);
      OneMoreEpoch(ledger, BoundariesOf(daStartHeight, daEpochSize), daStartHeight, first, daEpochSize);
    }
  }

  lemma EpochBefore(daStartHeight: u64, daEpochSize: u64, k: nat, next: nat) returns (first: nat)
    requires k > 0 && daEpochSize >= 1 && next == daStartHeight + k * daEpochSize && next < U64
    ensures first == daStartHeight + (k - 1) * daEpochSize && first + daEpochSize == next && daStartHeight <= first
    ensures EpochAt(BoundariesOf(daStartHeight, daEpochSize), first, daEpochSize)
  {
    assert k * daEpochSize == (k - 1) * daEpochSize + daEpochSize;
    assert (k - 1) * daEpochSize >= 0;
    first := next - daEpochSize;
    EpochStarts(daStartHeight, daEpochSize, k - 1, first);
  }

  lemma {:induction false} ZeroSizeDelivers(ledger: Ledger, daStartHeight: u64, hi: u64)
    requires daStartHeight <= hi
    ensures Delivered(ledger, BoundariesOf(daStartHeight, 0), daStartHeight, hi)
            == BlobsBetween(ledger, daStartHeight, daStartHeight)
    decreases hi
  {
    ZeroSizeDelivery(ledger, daStartHeight, hi);
    if daStartHeight < hi {
      ZeroSizeDelivers(ledger, daStartHeight, hi - 1);
    } else {
      assert Delivered(ledger, BoundariesOf(daStartHeight, 0), daStartHeight, daStartHeight - 1) == [];
    }
  }

  /** With epoch size 0 only the start height is ever delivered: the queries yield everything
      exactly when no later height holds a non-empty blob. */
  lemma ZeroSizeDeliversStartOnly(ledger: Ledger, daStartHeight: u64, hi: u64)
    requires daStartHeight <= hi
    ensures
      var all := Delivered(ledger, BoundariesOf(daStartHeight, 0), daStartHeight, hi);
      && all == NonEmpty(ledger(daStartHeight).blobs)
      && (all == BlobsBetween(ledger, daStartHeight, hi) <==> BlobsBetween(ledger, daStartHeight + 1, hi) == [])
  {
    ZeroSizeDelivers(ledger, daStartHeight, hi);
    BlobsSplit(ledger, daStartHeight, daStartHeight + 1, hi);
    assert BlobsBetween(ledger, daStartHeight, daStartHeight - 1) == [];
    assert BlobsBetween(ledger, daStartHeight, daStartHeight) == NonEmpty(ledger(daStartHeight).blobs);
    var more := BlobsBetween(ledger, daStartHeight + 1, hi);
    assert |BlobsBetween(ledger, daStartHeight, hi)| == |NonEmpty(ledger(daStartHeight).blobs)| + |more|;
  }

  lemma ZeroSizeDelivery(ledger: Ledger, daStartHeight: u64, h: u64)
    requires daStartHeight <= h
    ensures Delivery(ledger, BoundariesOf(daStartHeight, 0), h) ==
            if h == daStartHeight then BlobsBetween(ledger, daStartHeight, daStartHeight) else []
  {
    assert BoundariesOf(daStartHeight, 0)(h).start == BoundariesOf(daStartHeight, 0)(h).end == daStartHeight;
  }

  /** Heights up to `top` are all answered. */
  ghost predicate Answers(client: Client, top: nat) {
    forall h: nat :: h <= top ==> !client(h).FromFuture? && !client(h).Failed?
  }

  /** One query that goes through. */
  method QueryOnce(r: ForcedInclusionRetriever, h: u64, client: Client, views: Views, ghost ledger: Ledger)
    returns (txs: seq<Blob>)
    requires r.Valid() && r.hasNamespace && r.daEpochSize >= 1 && r.daStartHeight <= h < U64 - 1
    requires Honest(client, ledger) && AllCoherent(views, ledger) && Answers(client, h)
    modifies r.fetcher
    ensures txs == Delivery(ledger, BoundariesOf(r.daStartHeight, r.daEpochSize), h)
  {
    var event := r.RetrieveForcedIncludedTxs(h, client, views, ledger);
    StartExact(h, r.daStartHeight, r.daEpochSize);
    return event.value.txs;
  }

  /** The query at a height: an honest client that answers up to it, and whatever coherent contents
      prefetching gives the cache in between. */
  ghost predicate GoodQuery(clients: nat -> Client, views: nat -> Views, ledger: Ledger, h: nat) {
    Honest(clients(h), ledger) && AllCoherent(views(h), ledger) && Answers(clients(h), h)
  }

  ghost predicate GoodQueries(clients: nat -> Client, views: nat -> Views, ledger: Ledger) {
    forall h: nat :: GoodQuery(clients, views, ledger, h)
  }

  method QueryNext(r: ForcedInclusionRetriever, h: u64, before: seq<Blob>, clients: nat -> Client, views: nat -> Views,
                   ghost ledger: Ledger, ghost bounds: u64 -> Boundaries)
    returns (txs: seq<Blob>)
    requires r.Valid() && r.hasNamespace && r.daEpochSize >= 1 && r.daStartHeight <= h < U64 - 1
    requires GoodQueries(clients, views, ledger) && bounds == BoundariesOf(r.daStartHeight, r.daEpochSize)
    modifies r.fetcher
    requires before == Delivered(ledger, bounds, r.daStartHeight, h - 1)
    ensures txs == Delivered(ledger, bounds, r.daStartHeight, h)
  {
    assert GoodQuery(clients, views, ledger, h);
    var delivery := QueryOnce(r, h, clients(h), views(h), ledger);
    txs := before + delivery;
  }

  /** One query per DA height from the start height up to `end`. */
  method DeliverHeights(r: ForcedInclusionRetriever, end: nat, clients: nat -> Client, views: nat -> Views,
                        ghost ledger: Ledger, ghost bounds: u64 -> Boundaries)
    returns (txs: seq<Blob>)
    requires r.Valid() && r.hasNamespace && r.daEpochSize >= 1 && r.daStartHeight <= end < U64
    requires GoodQueries(clients, views, ledger) && bounds == BoundariesOf(r.daStartHeight, r.daEpochSize)
    modifies r.fetcher
    ensures txs == Delivered(ledger, bounds, r.daStartHeight, end - 1)
  {
    if end == r.daStartHeight {
      return [];
    }
    var before := DeliverHeights(r, end - 1, clients, views, ledger, bounds);
    txs := QueryNext(r, end - 1, before, clients, views, ledger, bounds);
  }

  /** The sequencer's side over `k` whole epochs: whatever the prefetch cache holds at each lookup and
      however prefetching fails, the blobs come out exactly once and in order. */
  method DeliverEpochs(r: ForcedInclusionRetriever, ghost k: nat, end: nat, clients: nat -> Client,
                       views: nat -> Views, ghost ledger: Ledger)
    returns (txs: seq<Blob>)
    requires r.Valid() && r.hasNamespace && r.daEpochSize >= 1
    requires end == r.daStartHeight + k * r.daEpochSize && end < U64
    requires GoodQueries(clients, views, ledger)
    modifies r.fetcher
    ensures txs == BlobsBetween(ledger, r.daStartHeight, end - 1)
  {
    assert k * r.daEpochSize >= 0;
    txs := DeliverHeights(r, end, clients, views, ledger, BoundariesOf(r.daStartHeight, r.daEpochSize));
    DeliveredExactlyOnce(ledger, r.daStartHeight, r.daEpochSize, k, end);
  }
}

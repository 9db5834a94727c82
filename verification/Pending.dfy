/** Items waiting for DA submission (block/internal/cache/pending_base.go, pending_data.go), against a
    plain scan of the store. */
module Pending {
  import opened Basics
  import opened Keys
  import opened Lru

  /** What the store answers for a height. */
  type Fetch<!T> = nat -> Option<T>

  const CAPACITY: nat := 200_000

  /** The last height of one answer: never more items than the cache can hold. */
  function EndHeight(last: nat, height: nat): nat
    requires last <= height
  {
    if height - last > CAPACITY then last + CAPACITY else height
  }

  /** The items of heights `lo`+1..`hi` read one after the other, or None when one is missing. */
  function Scan<T>(fetch: Fetch<T>, lo: nat, hi: nat): Option<seq<T>>
    decreases hi
  {
    if hi <= lo then Some([])
    else
      var before := Scan(fetch, lo, hi - 1);
      if before.None? || fetch(hi).None? then None else Some(before.value + [fetch(hi).value])
  }

  predicate AllThere<T>(fetch: Fetch<T>, lo: nat, hi: nat) {
    forall h: nat :: lo < h <= hi ==> fetch(h).Some?
  }

  /** `items` are the items of heights `lo`+1..`lo`+|items|, in order. */
  predicate Consecutive<T(==)>(fetch: Fetch<T>, lo: nat, items: seq<T>) {
    forall i :: 0 <= i < |items| ==> fetch(lo + 1 + i) == Some(items[i])
  }

  lemma {:induction false} ScanExact<T>(fetch: Fetch<T>, lo: nat, hi: nat)
    ensures Scan(fetch, lo, hi).Some? <==> AllThere(fetch, lo, hi)
    ensures Scan(fetch, lo, hi).Some? ==>
              Consecutive(fetch, lo, Scan(fetch, lo, hi).value) && |Scan(fetch, lo, hi).value| == (if lo < hi then hi - lo else 0)
    decreases hi
  {
    if lo < hi {
      ScanExact(fetch, lo, hi - 1);
      if AllThere(fetch, lo, hi) {
        assert AllThere(fetch, lo, hi - 1) && fetch(hi).Some?;
      }
    }
  }

  lemma ScanIs<T>(fetch: Fetch<T>, lo: nat, items: seq<T>)
    requires Consecutive(fetch, lo, items)
    ensures Scan(fetch, lo, lo + |items|) == Some(items)
  {
    forall h: nat | lo < h <= lo + |items| ensures fetch(h).Some? {
      assert fetch(lo + 1 + (h - lo - 1)) == Some(items[h - lo - 1]);
    }
    ScanExact(fetch, lo, lo + |items|);
    var scanned := Scan(fetch, lo, lo + |items|).value;
    forall i | 0 <= i < |items| ensures scanned[i] == items[i] {
      assert fetch(lo + 1 + i) == Some(scanned[i]);
    }
    assert scanned == items;
  }

  datatype Answer<T> = Items(items: seq<T>) | NothingPending | NoHeight | AheadOfStore | FetchFailed

  /** What getPending amounts to without its cache. */
  function PlainScan<T>(last: nat, height: Option<nat>, fetch: Fetch<T>): Answer<T> {
    if height.None? then NoHeight
    else if last == height.value then NothingPending
    else if last > height.value then AheadOfStore
    else
      var items := Scan(fetch, last, EndHeight(last, height.value));
      if items.Some? then Items(items.value) else FetchFailed
  }

  /** Each answer of the scan: nothing exactly when all is submitted, an error exactly when the height
      is unknown, the store is behind or an item is missing, and otherwise the next items in order, as
      many as are pending but at most 200000. */
  lemma PlainScanExact<T>(last: nat, height: Option<nat>, fetch: Fetch<T>)
    ensures
      var answer := PlainScan(last, height, fetch);
      && (answer.NoHeight? <==> height.None?)
      && (height.Some? ==>
            var n := Min(if height.value > last then height.value - last else 0, 200_000);
            && (answer.NothingPending? <==> last == height.value)
            && (answer.AheadOfStore? <==> last > height.value)
            && (answer.FetchFailed? <==> exists h: nat :: last < h <= last + n && fetch(h).None?)
            && (answer.Items? ==> |answer.items| == n && Consecutive(fetch, last, answer.items)))
  {
    if height.Some? && last < height.value {
      var n := Min(height.value - last, 200_000);
      assert EndHeight(last, height.value) == last + n;
      ScanExact(fetch, last, last + n);
      assert AllThere(fetch, last, last + n) <==> !exists h: nat :: last < h <= last + n && fetch(h).None?;
    }
  }

  // ---------------------------------------------------------------- the cache

  type Insert<!T> = Insertion<nat, T>

  /** The first loop: heights `lo`+1..`hi` that are not cached are fetched, up to the first failure. */
  function FetchMissing<T>(cache: map<nat, T>, fetch: Fetch<T>, insert: Insert<T>, lo: nat, hi: nat): (bool, map<nat, T>)
    decreases hi - lo
  {
    if hi <= lo then (true, cache)
    else if lo + 1 in cache then FetchMissing(cache, fetch, insert, lo + 1, hi)
    else if fetch(lo + 1).None? then (false, cache)
    else FetchMissing(insert(cache, lo + 1, fetch(lo + 1).value), fetch, insert, lo + 1, hi)
  }

  /** The second loop: the items in order, from the cache or, when evicted since, fetched again. */
  function Collect<T>(cache: map<nat, T>, fetch: Fetch<T>, insert: Insert<T>, lo: nat, hi: nat)
    : (Option<seq<T>>, map<nat, T>)
    decreases hi - lo
  {
    if hi <= lo then (Some([]), cache)
    else if lo + 1 in cache then
      var rest := Collect(cache, fetch, insert, lo + 1, hi);
      (Prepend(cache[lo + 1], rest.0), rest.1)
    else if fetch(lo + 1).None? then (None, cache)
    else
      var item := fetch(lo + 1).value;
      var rest := Collect(insert(cache, lo + 1, item), fetch, insert, lo + 1, hi);
      (Prepend(item, rest.0), rest.1)
  }

  function Prepend<T>(item: T, items: Option<seq<T>>): Option<seq<T>> {
    if items.None? then None else Some([item] + items.value)
  }

  /** getPending: its answer and the cache it leaves. */
  function GetPending<T>(
    last: nat, cache: map<nat, T>, height: Option<nat>, fetch: Fetch<T>, first: Insert<T>, second: Insert<T>)
    : (Answer<T>, map<nat, T>)
  {
    if height.None? then (NoHeight, cache)
    else if last == height.value then (NothingPending, cache)
    else if last > height.value then (AheadOfStore, cache)
    else
      var end := EndHeight(last, height.value);
      var fetched := FetchMissing(cache, fetch, first, last, end);
      if !fetched.0 then (FetchFailed, fetched.1)
      else
        var items := Collect(fetched.1, fetch, second, last, end);
        (if items.0.None? then FetchFailed else Items(items.0.value), items.1)
  }

  /** Cached items of heights `lo`+1..`hi` are what the store answers. */
  ghost predicate CoherentIn<T(!new)>(cache: map<nat, T>, fetch: Fetch<T>, lo: nat, hi: nat) {
    forall h: nat :: lo < h <= hi && h in cache ==> fetch(h) == Some(cache[h])
  }

  /** Every item of `after` was in `before` or is what the store answers. */
  ghost predicate Sourced<T(!new)>(before: map<nat, T>, after: map<nat, T>, fetch: Fetch<T>) {
    forall h: nat :: h in after ==> (h in before && before[h] == after[h]) || fetch(h) == Some(after[h])
  }

  lemma {:induction false} FetchMissingExact<T(!new)>(
    cache: map<nat, T>, fetch: Fetch<T>, insert: Insert<T>, lo: nat, hi: nat, from: nat)
    requires Evicting(insert) && from <= lo && CoherentIn(cache, fetch, from, hi)
    ensures
      var r := FetchMissing(cache, fetch, insert, lo, hi);
      && (r.0 <==> AllThere(fetch, lo, hi))
      && CoherentIn(r.1, fetch, from, hi) && Sourced(cache, r.1, fetch)
    decreases hi - lo
  {
    if lo < hi {
      if lo + 1 in cache {
        FetchMissingExact(cache, fetch, insert, lo + 1, hi, from);
      } else if fetch(lo + 1).Some? {
        var item := fetch(lo + 1).value;
        assert OneInserted(cache, lo + 1, item, insert(cache, lo + 1, item));
        FetchMissingExact(insert(cache, lo + 1, item), fetch, insert, lo + 1, hi, from);
      }
    }
  }

  lemma {:induction false} CollectExact<T(!new)>(
    cache: map<nat, T>, fetch: Fetch<T>, insert: Insert<T>, lo: nat, hi: nat, from: nat)
    requires Evicting(insert) && from <= lo <= hi && CoherentIn(cache, fetch, from, hi)
    ensures
      var r := Collect(cache, fetch, insert, lo, hi);
      && (r.0.Some? <==> AllThere(fetch, lo, hi))
      && (r.0.Some? ==> |r.0.value| == hi - lo && Consecutive(fetch, lo, r.0.value))
      && CoherentIn(r.1, fetch, from, hi) && Sourced(cache, r.1, fetch)
    decreases hi - lo
  {
    if lo < hi && (lo + 1 in cache || fetch(lo + 1).Some?) {
      var item := if lo + 1 in cache then cache[lo + 1] else fetch(lo + 1).value;
      var after := if lo + 1 in cache then cache else insert(cache, lo + 1, item);
      if lo + 1 !in cache {
        assert OneInserted(cache, lo + 1, item, insert(cache, lo + 1, item));
      }
      CollectExact(after, fetch, insert, lo + 1, hi, from);
      var rest := Collect(after, fetch, insert, lo + 1, hi).0;
      if rest.Some? {
        ConsecutiveCons(fetch, lo, item, rest.value);
      }
    }
  }

  lemma ConsecutiveCons<T>(fetch: Fetch<T>, lo: nat, item: T, rest: seq<T>)
    requires fetch(lo + 1) == Some(item) && Consecutive(fetch, lo + 1, rest)
    ensures Consecutive(fetch, lo, [item] + rest)
  {
    forall i | 0 <= i < |[item] + rest| ensures fetch(lo + 1 + i) == Some(([item] + rest)[i]) {
      if i > 0 {
        assert fetch(lo + 1 + 1 + (i - 1)) == Some(rest[i - 1]);
      }
    }
  }

  /** One call: with the cached items of the scanned heights up to date, whatever else is cached and
      whatever is evicted, the answer is that of the plain scan, errors included. */
  lemma GetPendingIsScan<T(!new)>(
    last: nat, cache: map<nat, T>, height: Option<nat>, fetch: Fetch<T>, first: Insert<T>, second: Insert<T>)
    requires Evicting(first) && Evicting(second)
    requires height.Some? && last < height.value ==> CoherentIn(cache, fetch, last, EndHeight(last, height.value))
    ensures GetPending(last, cache, height, fetch, first, second).0 == PlainScan(last, height, fetch)
    ensures Sourced(cache, GetPending(last, cache, height, fetch, first, second).1, fetch)
  {
    if height.Some? && last < height.value {
      var end := EndHeight(last, height.value);
      ScanExact(fetch, last, end);
      FetchMissingExact(cache, fetch, first, last, end, last);
      var fetched := FetchMissing(cache, fetch, first, last, end);
      if fetched.0 {
        CollectExact(fetched.1, fetch, second, last, end, last);
        var items := Collect(fetched.1, fetch, second, last, end).0;
        ScanIs(fetch, last, items.value);
      }
    }
  }

  // ---------------------------------------------------------------- the submitted height

  datatype Marker = Marker(last: nat, entry: Option<Bytes>)

  /** setLastSubmittedHeight; `persists` says whether the metadata write goes through. */
  function SetLast(m: Marker, height: nat, persists: bool): Marker {
    if height <= m.last then m
    else Marker(height, if persists then Some(EncodeHeight(height)) else m.entry)
  }

  /** init on a new instance; None for an entry of the wrong length. */
  function Restored(entry: Option<Bytes>): Option<nat> {
    if entry.None? then Some(0) else DecodeHeight(entry.value)
  }

  /** Submitting up to a height moves the marker there and never back. What a restart finds is that
      height when it was written, and what it found before when it was not. */
  lemma SetLastExact(m: Marker, height: nat, persists: bool)
    ensures
      var after := SetLast(m, height, persists);
      && after.last == Max(m.last, height)
      && (height <= m.last ==> after == m)
      && (m.last < height < U64 ==> if persists then Restored(after.entry) == Some(height) else after.entry == m.entry)
  {
    if height < U64 {
      HeightRoundTrip(height, []);
    }
  }

  // ---------------------------------------------------------------- runs of calls

  /** Calls interleaved with progress of submission, whose marker is written or not, with restarts and
      with changes of what the store holds. */
  datatype Event<!T> =
    | Poll(height: Option<nat>, first: Insert<T>, second: Insert<T>)
    | Submitted(upTo: nat, persists: bool)
    | Restart
    | StoreChanges(fetch: Fetch<T>)

  /** The answers of the calls of a run of the object; a restart that cannot read its entry ends it. */
  function Answers<T>(m: Marker, cache: map<nat, T>, fetch: Fetch<T>, events: seq<Event<T>>): seq<Answer<T>>
    decreases events
  {
    if events == [] then []
    else
      match events[0]
      case Poll(height, first, second) =>
        var r := GetPending(m.last, cache, height, fetch, first, second);
        [r.0] + Answers(m, r.1, fetch, events[1..])
      case Submitted(h, persists) => Answers(SetLast(m, h, persists), cache, fetch, events[1..])
      case Restart =>
        if Restored(m.entry).None? then []
        else Answers(Marker(Restored(m.entry).value, m.entry), map[], fetch, events[1..])
      case StoreChanges(fetch') => Answers(m, cache, fetch', events[1..])
  }

  /** The answers without a cache and without encodings: `last` is the highest height submitted since
      the start, `kept` where a restart would resume. */
  function ScanAnswers<T>(last: nat, kept: nat, fetch: Fetch<T>, events: seq<Event<T>>): seq<Answer<T>>
    decreases events
  {
    if events == [] then []
    else
      match events[0]
      case Poll(height, _, _) => [PlainScan(last, height, fetch)] + ScanAnswers(last, kept, fetch, events[1..])
      case Submitted(h, persists) =>
        ScanAnswers(Max(last, h), if persists && h > last then h else kept, fetch, events[1..])
      case Restart => ScanAnswers(kept, kept, fetch, events[1..])
      case StoreChanges(fetch') => ScanAnswers(last, kept, fetch', events[1..])
  }

  ghost predicate Heights64<T(!new)>(events: seq<Event<T>>) {
    forall i :: 0 <= i < |events| && events[i].Submitted? ==> events[i].upTo < U64
  }

  ghost predicate RealCaches<T(!new)>(events: seq<Event<T>>) {
    forall i :: 0 <= i < |events| && events[i].Poll? ==> Evicting(events[i].first) && Evicting(events[i].second)
  }

  /** Cached items still to be submitted are what the store answers. */
  ghost predicate CoherentAbove<T(!new)>(cache: map<nat, T>, fetch: Fetch<T>, last: nat) {
    forall h: nat :: last < h && h in cache ==> fetch(h) == Some(cache[h])
  }

  /** A run in which no change of the store contradicts an item that is cached at that moment and
      still to be submitted. Submitted heights may be pruned or replaced, and so may uncached ones. */
  ghost predicate CoherentRun<T(!new)>(
    last: nat, kept: nat, cache: map<nat, T>, fetch: Fetch<T>, events: seq<Event<T>>)
    decreases events
  {
    events == [] ||
    match events[0]
    case Poll(height, first, second) =>
      CoherentRun(last, kept, GetPending(last, cache, height, fetch, first, second).1, fetch, events[1..])
    case Submitted(h, persists) =>
      CoherentRun(Max(last, h), if persists && h > last then h else kept, cache, fetch, events[1..])
    case Restart => CoherentRun(kept, kept, map[], fetch, events[1..])
    case StoreChanges(fetch') =>
      CoherentAbove(cache, fetch', last) && CoherentRun(last, kept, cache, fetch', events[1..])
  }

  /** Over every such run, from the empty cache or any coherent one, every answer is that of the
      plain scan, whatever the cache evicts: above the highest height submitted or, after a restart,
      the highest one written. */
  lemma {:induction false} EveryAnswerIsScan<T(!new)>(
    m: Marker, kept: nat, cache: map<nat, T>, fetch: Fetch<T>, events: seq<Event<T>>)
    requires Restored(m.entry) == Some(kept) && Heights64(events)
    requires CoherentAbove(cache, fetch, m.last) && CoherentRun(m.last, kept, cache, fetch, events) && RealCaches(events)
    ensures Answers(m, cache, fetch, events) == ScanAnswers(m.last, kept, fetch, events)
    decreases events
  {
    if events != [] {
      match events[0]
      case Poll(height, first, second) =>
        GetPendingIsScan(m.last, cache, height, fetch, first, second);
        EveryAnswerIsScan(m, kept, GetPending(m.last, cache, height, fetch, first, second).1, fetch, events[1..]);
      case Submitted(h, persists) =>
        SetLastExact(m, h, persists);
        EveryAnswerIsScan(
          SetLast(m, h, persists), if persists && h > m.last then h else kept, cache, fetch, events[1..]);
      case Restart => EveryAnswerIsScan(Marker(kept, m.entry), kept, map[], fetch, events[1..]);
      case StoreChanges(fetch') => EveryAnswerIsScan(m, kept, cache, fetch', events[1..]);
    }
  }

  /** A run in which the store only gains items above the submitted height, and anything happens to
      those at or below it: block production and pruning. */
  ghost predicate GrowingRun<T(!new)>(last: nat, kept: nat, fetch: Fetch<T>, events: seq<Event<T>>)
    decreases events
  {
    events == [] ||
    match events[0]
    case Poll(_, _, _) => GrowingRun(last, kept, fetch, events[1..])
    case Submitted(h, persists) =>
      GrowingRun(Max(last, h), if persists && h > last then h else kept, fetch, events[1..])
    case Restart => GrowingRun(kept, kept, fetch, events[1..])
    case StoreChanges(fetch') =>
      && (forall h: nat :: last < h && fetch(h).Some? ==> fetch'(h) == fetch(h))
      && GrowingRun(last, kept, fetch', events[1..])
  }

  /** Production and pruning never contradict the cache. */
  lemma {:induction false} GrowthIsCoherent<T(!new)>(
    last: nat, kept: nat, cache: map<nat, T>, fetch: Fetch<T>, events: seq<Event<T>>)
    requires CoherentAbove(cache, fetch, last) && GrowingRun(last, kept, fetch, events) && RealCaches(events)
    ensures CoherentRun(last, kept, cache, fetch, events)
    decreases events
  {
    if events != [] {
      match events[0]
      case Poll(height, first, second) =>
        GetPendingIsScan(last, cache, height, fetch, first, second);
        GrowthIsCoherent(last, kept, GetPending(last, cache, height, fetch, first, second).1, fetch, events[1..]);
      case Submitted(h, persists) =>
        GrowthIsCoherent(Max(last, h), if persists && h > last then h else kept, cache, fetch, events[1..]);
      case Restart => GrowthIsCoherent(kept, kept, map[], fetch, events[1..]);
      case StoreChanges(fetch') => GrowthIsCoherent(last, kept, cache, fetch', events[1..]);
    }
  }

  // ---------------------------------------------------------------- when the cache is stale

  /** A height to scan that is neither cached nor stored. */
  ghost predicate Gap<T>(cache: map<nat, T>, fetch: Fetch<T>, lo: nat, hi: nat) {
    exists h: nat :: lo < h <= hi && h !in cache && fetch(h).None?
  }

  /** A gap is noticed whatever is cached. */
  lemma {:induction false} GapFails<T(!new)>(cache: map<nat, T>, fetch: Fetch<T>, insert: Insert<T>, lo: nat, hi: nat)
    requires Evicting(insert) && Gap(cache, fetch, lo, hi)
    ensures !FetchMissing(cache, fetch, insert, lo, hi).0
    decreases hi - lo
  {
    if lo + 1 in cache {
      GapFails(cache, fetch, insert, lo + 1, hi);
    } else if fetch(lo + 1).Some? {
      var item := fetch(lo + 1).value;
      var after := insert(cache, lo + 1, item);
      assert OneInserted(cache, lo + 1, item, after);
      var h: nat :| lo < h <= hi && h !in cache && fetch(h).None?;
      assert h !in after;
      GapFails(after, fetch, insert, lo + 1, hi);
    }
  }

  /** What a cache that drops nothing shows of the store. */
  function View<T>(cache: map<nat, T>, fetch: Fetch<T>): Fetch<T> {
    (h: nat) => if h in cache then Some(cache[h]) else fetch(h)
  }

  /** With nothing evicted, the two loops see no more of the store than its answers for what is not
      cached: after the first loop all heights are. */
  lemma {:induction false} KeepingFetches<T(!new)>(
    cache: map<nat, T>, a: Fetch<T>, b: Fetch<T>, keep: Insert<T>, lo: nat, hi: nat)
    requires forall c, k, v :: keep(c, k, v) == c[k := v]
    requires forall h: nat :: h !in cache ==> a(h) == b(h)
    ensures FetchMissing(cache, a, keep, lo, hi) == FetchMissing(cache, b, keep, lo, hi)
    ensures
      var r := FetchMissing(cache, a, keep, lo, hi);
      (forall h :: h in cache ==> h in r.1) && (r.0 ==> forall h: nat :: lo < h <= hi ==> h in r.1)
    decreases hi - lo
  {
    if lo < hi {
      if lo + 1 in cache {
        KeepingFetches(cache, a, b, keep, lo + 1, hi);
      } else if a(lo + 1).Some? {
        KeepingFetches(keep(cache, lo + 1, a(lo + 1).value), a, b, keep, lo + 1, hi);
      }
    }
  }

  /** Collecting cached items does not consult the store. */
  lemma {:induction false} OnlyTheCacheMatters<T>(
    cache: map<nat, T>, a: Fetch<T>, b: Fetch<T>, insert: Insert<T>, lo: nat, hi: nat)
    requires forall h: nat :: lo < h <= hi ==> h in cache
    ensures Collect(cache, a, insert, lo, hi) == Collect(cache, b, insert, lo, hi)
    decreases hi - lo
  {
    if lo < hi {
      OnlyTheCacheMatters(cache, a, b, insert, lo + 1, hi);
    }
  }

  /** With nothing evicted, the answer is the scan of the view. */
  lemma KeepingShowsView<T(!new)>(last: nat, cache: map<nat, T>, height: nat, fetch: Fetch<T>, keep: Insert<T>)
    requires Evicting(keep) && (forall c, k, v :: keep(c, k, v) == c[k := v]) && last < height
    ensures GetPending(last, cache, Some(height), fetch, keep, keep).0
            == PlainScan(last, Some(height), View(cache, fetch))
  {
    var end, view := EndHeight(last, height), View(cache, fetch);
    KeepingFetches(cache, fetch, view, keep, last, end);
    var fetched := FetchMissing(cache, fetch, keep, last, end);
    if fetched.0 {
      OnlyTheCacheMatters(fetched.1, fetch, view, keep, last, end);
    }
    GetPendingIsScan(last, cache, Some(height), view, keep, keep);
  }

  /** Two stores give the same complete scan only if they agree on the scanned heights. */
  lemma SameScanAgrees<T>(a: Fetch<T>, b: Fetch<T>, lo: nat, hi: nat, h: nat)
    requires AllThere(a, lo, hi) && Scan(a, lo, hi) == Scan(b, lo, hi) && lo < h <= hi
    ensures a(h) == b(h)
  {
    ScanExact(a, lo, hi);
    ScanExact(b, lo, hi);
    var items, i := Scan(a, lo, hi).value, h - lo - 1;
    assert a(lo + 1 + i) == Some(items[i]) && b(lo + 1 + i) == Some(items[i]);
  }

  /** The answer is that of the plain scan for every behaviour of the cache if and only if the cached
      items of the scanned heights are what the store holds, or some scanned height is in neither. */
  lemma ScanWhateverIsEvictedIff<T(!new)>(last: nat, cache: map<nat, T>, height: nat, fetch: Fetch<T>)
    requires last < height
    ensures
      (forall first: Insert<T>, second: Insert<T> :: Evicting(first) && Evicting(second) ==>
         GetPending(last, cache, Some(height), fetch, first, second).0 == PlainScan(last, Some(height), fetch))
      <==>
      CoherentIn(cache, fetch, last, EndHeight(last, height)) || Gap(cache, fetch, last, EndHeight(last, height))
  {
    var end, view := EndHeight(last, height), View(cache, fetch);
    if CoherentIn(cache, fetch, last, end) || Gap(cache, fetch, last, end) {
      forall first: Insert<T>, second: Insert<T> | Evicting(first) && Evicting(second)
        ensures GetPending(last, cache, Some(height), fetch, first, second).0 == PlainScan(last, Some(height), fetch)
      {
        if Gap(cache, fetch, last, end) {
          GapFails(cache, fetch, first, last, end);
          ScanExact(fetch, last, end);
        } else {
          GetPendingIsScan(last, cache, Some(height), fetch, first, second);
        }
      }
    } else {
      var keep: Insert<T> := Inserting(Policy(0, (keys: set<nat>) => {}));
      AddIsEvicting<nat, T>(Policy(0, (keys: set<nat>) => {}));
      KeepingShowsView(last, cache, height, fetch, keep);
      var h: nat :| last < h <= end && h in cache && fetch(h) != Some(cache[h]);
      ScanExact(view, last, end);
      if Scan(view, last, end) == Scan(fetch, last, end) {
        SameScanAgrees(view, fetch, last, end, h);
      }
    }
  }

  const NEW := Marker(0, None)

  /** After a rollback of the store and another block at the same height, the old item is submitted. */
  lemma StaleAfterRollback<T(!new)>(x: T, y: T, first: Insert<T>, second: Insert<T>)
    requires x != y && Evicting(first)
    ensures
      var one, other: Fetch<T> := h => if h == 1 then Some(x) else None, h => if h == 1 then Some(y) else None;
      var events := [Poll(Some(1), first, second), StoreChanges(other), Poll(Some(1), first, second)];
      && Answers(NEW, map[], one, events) == [Items([x]), Items([x])]
      && ScanAnswers(0, 0, one, events) == [Items([x]), Items([y])]
  {
    var one, other: Fetch<T> := h => if h == 1 then Some(x) else None, h => if h == 1 then Some(y) else None;
    var poll: Event<T> := Poll(Some(1), first, second);
    var events := [poll, StoreChanges(other), poll];
    var cache := map[1 := x];
    assert events[1..] == [StoreChanges(other), poll] && events[1..][1..] == [poll] && [poll][1..] == [];
    assert first(map[], 1, x) == cache by {
      assert OneInserted(map[], 1, x, first(map[], 1, x));
    }
    OneItem(map[], one, first, second, x);
    OneItem(cache, other, first, second, x);
    assert Answers(NEW, cache, other, [poll]) == [Items([x])];
    assert Answers(NEW, cache, one, events[1..]) == [Items([x])];
    OneScan(one, x);
    OneScan(other, y);
    assert ScanAnswers(0, 0, other, [poll]) == [Items([y])];
    assert ScanAnswers(0, 0, one, events[1..]) == [Items([y])];
  }

  lemma OneItem<T>(cache: map<nat, T>, fetch: Fetch<T>, first: Insert<T>, second: Insert<T>, x: T)
    requires (cache == map[] && fetch(1) == Some(x) && first(map[], 1, x) == map[1 := x]) || cache == map[1 := x]
    ensures GetPending(0, cache, Some(1), fetch, first, second) == (Items([x]), map[1 := x])
  {
    var full := map[1 := x];
    assert FetchMissing(full, fetch, first, 1, 1) == (true, full);
    assert FetchMissing(cache, fetch, first, 0, 1) == (true, full);
    assert Collect(full, fetch, second, 1, 1) == (Some([]), full);
    assert [x] + [] == [x];
    assert Collect(full, fetch, second, 0, 1) == (Some([x]), full);
  }

  lemma OneScan<T>(fetch: Fetch<T>, x: T)
    requires fetch(1) == Some(x)
    ensures PlainScan(0, Some(1), fetch) == Items([x])
  {
    assert Scan(fetch, 0, 0) == Some([]);
    assert Scan(fetch, 0, 1) == Some([] + [x]);
  }

  // ---------------------------------------------------------------- submission

  /** A round of submission: the store height it saw, how many of the pending items got through and
      whether the height of the last of them was then written. */
  datatype Round = Round(height: Option<nat>, accepted: nat, persists: bool)

  /** What one round gets through. */
  function Sent<T>(last: nat, round: Round, fetch: Fetch<T>): seq<T> {
    var answer := PlainScan(last, round.height, fetch);
    if answer.Items? then answer.items[..Min(round.accepted, |answer.items|)] else []
  }

  /** Items submitted by a run, and the marker after it: each round sets it to the last item's height. */
  function Submit<T>(m: Marker, rounds: seq<Round>, fetch: Fetch<T>): (seq<T>, Marker)
    decreases rounds
  {
    if rounds == [] then ([], m)
    else
      var sent := Sent(m.last, rounds[0], fetch);
      var rest := Submit(SetLast(m, m.last + |sent|, rounds[0].persists), rounds[1..], fetch);
      (sent + rest.0, rest.1)
  }

  lemma SentInOrder<T>(last: nat, round: Round, fetch: Fetch<T>)
    ensures Consecutive(fetch, last, Sent(last, round, fetch))
  {
    if PlainScan(last, round.height, fetch).Items? {
      ScanExact(fetch, last, EndHeight(last, round.height.value));
    }
  }

  /** However the rounds cut the queue, what is submitted is every item after the last submitted
      height in order, none twice and none left out. */
  lemma {:induction false} SubmittedInOrder<T>(m: Marker, rounds: seq<Round>, fetch: Fetch<T>)
    ensures
      var r := Submit(m, rounds, fetch);
      r.1.last == m.last + |r.0| && Consecutive(fetch, m.last, r.0)
    decreases rounds
  {
    if rounds != [] {
      var sent := Sent(m.last, rounds[0], fetch);
      var next := SetLast(m, m.last + |sent|, rounds[0].persists);
      SentInOrder(m.last, rounds[0], fetch);
      SetLastExact(m, m.last + |sent|, rounds[0].persists);
      SubmittedInOrder(next, rounds[1..], fetch);
      ConsecutiveAppend(fetch, m.last, sent, Submit(next, rounds[1..], fetch).0);
    }
  }

  lemma ConsecutiveAppend<T>(fetch: Fetch<T>, lo: nat, a: seq<T>, b: seq<T>)
    requires Consecutive(fetch, lo, a) && Consecutive(fetch, lo + |a|, b)
    ensures Consecutive(fetch, lo, a + b)
  {
    forall i | 0 <= i < |a + b| ensures fetch(lo + 1 + i) == Some((a + b)[i]) {
      if i >= |a| {
        assert fetch(lo + |a| + 1 + (i - |a|)) == Some(b[i - |a|]);
      }
    }
  }

  /** A queue on which every item can be fetched is drained by rounds that each get something
      through: after `height` less the marker of them nothing is pending. */
  lemma {:induction false} SubmissionDrains<T>(m: Marker, height: nat, rounds: seq<Round>, fetch: Fetch<T>)
    requires m.last <= height && AllThere(fetch, m.last, height) && |rounds| >= height - m.last
    requires forall i :: 0 <= i < |rounds| ==> rounds[i].height == Some(height) && rounds[i].accepted > 0
    ensures Submit(m, rounds, fetch).1.last == height
    decreases rounds
  {
    if rounds != [] {
      if m.last < height {
        ScanExact(fetch, m.last, EndHeight(m.last, height));
      }
      var n := |Sent(m.last, rounds[0], fetch)|;
      SetLastExact(m, m.last + n, rounds[0].persists);
      SubmissionDrains(SetLast(m, m.last + n, rounds[0].persists), height, rounds[1..], fetch);
    }
  }

  // ---------------------------------------------------------------- last submitted height

  function NumPending(last: nat, height: Option<nat>): nat {
    if height.None? then 0 else (height.value - last) % U64
  }

  /** The unsigned difference is the number of pending heights exactly while the store is not behind. */
  lemma NumPendingExactIff(last: nat, height: nat)
    requires last < U64 && height < U64
    ensures NumPending(last, Some(height)) == (if last < height then height - last else 0) <==> last <= height
    ensures last > height ==> NumPending(last, Some(height)) == U64 - (last - height)
  {
    if last <= height {
      assert (height - last) % U64 == height - last;
    } else {
      assert (height - last) % U64 == U64 - (last - height) by {
        assert height - last == -1 * U64 + (U64 - (last - height));
      }
    }
  }

  function SetAll(m: Marker, calls: seq<(nat, bool)>): Marker
    decreases calls
  {
    if calls == [] then m else SetAll(SetLast(m, calls[0].0, calls[0].1), calls[1..])
  }

  /** After any calls the marker is the largest of where it was and the heights called with. */
  lemma {:induction false} SetAllIsLargest(m: Marker, calls: seq<(nat, bool)>)
    ensures
      var after := SetAll(m, calls);
      && m.last <= after.last && (forall i :: 0 <= i < |calls| ==> calls[i].0 <= after.last)
      && (after.last == m.last || exists i :: 0 <= i < |calls| && calls[i].0 == after.last)
    decreases calls
  {
    if calls != [] {
      var next, after := SetLast(m, calls[0].0, calls[0].1), SetAll(m, calls);
      SetLastExact(m, calls[0].0, calls[0].1);
      SetAllIsLargest(next, calls[1..]);
      forall i | 0 <= i < |calls| ensures calls[i].0 <= after.last {
        assert i > 0 ==> calls[i] == calls[1..][i - 1];
      }
      if after.last != m.last && calls[0].0 != after.last {
        var i :| 0 <= i < |calls[1..]| && calls[1..][i].0 == after.last;
        assert calls[i + 1].0 == after.last;
      }
    }
  }

  /** A restart never resumes beyond what was submitted, so nothing is skipped; it resumes exactly
      there when every write went through. */
  lemma {:induction false} RestartResumes(m: Marker, calls: seq<(nat, bool)>)
    requires Restored(m.entry).Some? && Restored(m.entry).value <= m.last
    requires forall i :: 0 <= i < |calls| ==> calls[i].0 < U64
    ensures
      var after := SetAll(m, calls);
      && m.last <= after.last
      && Restored(after.entry).Some? && Restored(after.entry).value <= after.last
      && (Restored(m.entry).value == m.last && (forall i :: 0 <= i < |calls| ==> calls[i].1) ==>
            Restored(after.entry).value == after.last)
    decreases calls
  {
    if calls != [] {
      HeightRoundTrip(calls[0].0, []);
      RestartResumes(SetLast(m, calls[0].0, calls[0].1), calls[1..]);
    }
  }

  // ---------------------------------------------------------------- empty data

  datatype BlockData = BlockData(height: nat, txs: seq<Bytes>)

  /** fetchData: data of height 0 is still being produced. */
  function FetchData(stored: Fetch<BlockData>, h: nat): Option<BlockData> {
    if stored(h).None? || stored(h).value.height == 0 then None else stored(h)
  }

  /** A finished block without transactions. */
  predicate EmptyBlock(stored: Fetch<BlockData>, h: nat) {
    stored(h).Some? && stored(h).value.height > 0 && stored(h).value.txs == []
  }

  function Advance(last: nat, height: nat, stored: Fetch<BlockData>): nat
    decreases height - last
  {
    if last < height && EmptyBlock(stored, last + 1) then Advance(last + 1, height, stored) else last
  }

  /** The same with what is persisted on the way; `persists` says which writes go through. */
  function AdvanceMark(m: Marker, height: nat, stored: Fetch<BlockData>, persists: nat -> bool): Marker
    decreases height - m.last
  {
    if m.last < height && EmptyBlock(stored, m.last + 1)
    then AdvanceMark(SetLast(m, m.last + 1, persists(m.last + 1)), height, stored, persists) else m
  }

  /** The marker ends where `Advance` says; a restart resumes at or before it, and exactly there when
      every write went through. */
  lemma {:induction false} AdvanceMarkExact(m: Marker, height: nat, stored: Fetch<BlockData>, persists: nat -> bool)
    requires Restored(m.entry).Some? && Restored(m.entry).value <= m.last && height < U64
    ensures
      var after := AdvanceMark(m, height, stored, persists);
      && after.last == Advance(m.last, height, stored)
      && Restored(after.entry).Some? && Restored(after.entry).value <= after.last
      && (Restored(m.entry).value == m.last && (forall h :: persists(h)) ==> Restored(after.entry).value == after.last)
    decreases height - m.last
  {
    if m.last < height && EmptyBlock(stored, m.last + 1) {
      HeightRoundTrip(m.last + 1, []);
      AdvanceMarkExact(SetLast(m, m.last + 1, persists(m.last + 1)), height, stored, persists);
    }
  }

  /** The marker moves to the end of the empty blocks that follow it, and only there. */
  lemma {:induction false} AdvanceExact(last: nat, height: nat, stored: Fetch<BlockData>, r: nat)
    ensures Advance(last, height, stored) == r <==>
            && last <= r <= Max(last, height)
            && (forall h: nat :: last < h <= r ==> EmptyBlock(stored, h))
            && !(r < height && EmptyBlock(stored, r + 1))
    decreases height - last
  {
    if last < height && EmptyBlock(stored, last + 1) {
      AdvanceExact(last + 1, height, stored, r);
    }
  }
}

module PendingItems {
  import opened Basics
  import opened Keys
  import P = Pending
  import opened Pending

  class PendingBase<T> {
    var lastHeight: nat
    var entry: Option<Bytes>
    var pendingCache: map<nat, T>

    constructor (entry: Option<Bytes>)
      ensures pendingCache == map[] && Mark() == Marker(0, entry)
    {
      this.entry, pendingCache, lastHeight := entry, map[], 0;
    }

    /** Picks up the persisted height on a new instance; an entry of the wrong length is an error. */
    method Init() returns (ok: bool)
      modifies `lastHeight
      ensures ok <==> Restored(entry).Some?
      ensures lastHeight == if ok && old(lastHeight) == 0 then Restored(entry).value else old(lastHeight)
    {
      if entry.None? {
        return true;
      }
      var lsh := DecodeHeight(entry.value);
      if lsh.None? {
        return false;
      }
      if lsh.value == 0 {
        return true;
      }
      if lastHeight == 0 {
        lastHeight := lsh.value;
      }
      return true;
    }

    ghost function Mark(): Marker
      reads this
    {
      Marker(lastHeight, entry)
    }

    /** getPending for any cache contents; what the answer is worth is said by the lemmas about
        the function of the same name. */
    method GetPending(height: Option<nat>, fetch: Fetch<T>, first: Insert<T>, second: Insert<T>)
      returns (answer: Answer<T>)
      modifies `pendingCache
      ensures (answer, pendingCache) == P.GetPending(lastHeight, old(pendingCache), height, fetch, first, second)
    {
      if height.None? {
        return NoHeight;
      }
      if lastHeight == height.value {
        return NothingPending;
      }
      if lastHeight > height.value {
        return AheadOfStore;
      }
      var pendingCount := height.value - lastHeight;
      var endHeight := height.value;
      if pendingCount > CAPACITY {
        endHeight := lastHeight + CAPACITY;
      }
      var ok := FetchMissing(lastHeight, endHeight, fetch, first);
      if !ok {
        return FetchFailed;
      }
      var items := Collect(lastHeight, endHeight, fetch, second);
      if items.None? {
        return FetchFailed;
      }
      return Items(items.value);
    }

    method FetchMissing(lo: nat, hi: nat, fetch: Fetch<T>, insert: Insert<T>) returns (ok: bool)
      requires lo <= hi
      modifies `pendingCache
      ensures (ok, pendingCache) == P.FetchMissing(old(pendingCache), fetch, insert, lo, hi)
    {
      ghost var goal := P.FetchMissing(pendingCache, fetch, insert, lo, hi);
      var h := lo + 1;
      while h <= hi
        invariant lo + 1 <= h <= hi + 1
        invariant P.FetchMissing(pendingCache, fetch, insert, h - 1, hi) == goal
      {
        var there := FetchOne(h, fetch, insert, hi);
        if !there {
          return false;
        }
        h := h + 1;
      }
      return true;
    }

    /** One round of the first loop. */
    method FetchOne(h: nat, fetch: Fetch<T>, insert: Insert<T>, ghost hi: nat) returns (there: bool)
      requires 1 <= h <= hi
      modifies `pendingCache
      ensures P.FetchMissing(old(pendingCache), fetch, insert, h - 1, hi) ==
              if there then P.FetchMissing(pendingCache, fetch, insert, h, hi) else (false, pendingCache)
    {
      FetchStep(pendingCache, fetch, insert, h - 1, hi);
      if h in pendingCache {
        return true;
      }
      var item := fetch(h);
      if item.None? {
        return false;
      }
      pendingCache := insert(pendingCache, h, item.value);
      return true;
    }

    method Collect(lo: nat, hi: nat, fetch: Fetch<T>, insert: Insert<T>) returns (items: Option<seq<T>>)
      requires lo <= hi
      modifies `pendingCache
      ensures (items, pendingCache) == P.Collect(old(pendingCache), fetch, insert, lo, hi)
    {
      ghost var goal := P.Collect(pendingCache, fetch, insert, lo, hi);
      var pending: seq<T> := [];
      assert goal.0.Some? ==> pending + goal.0.value == goal.0.value;
      var h := lo + 1;
      while h <= hi
        invariant lo + 1 <= h <= hi + 1
        invariant goal == After(pending, P.Collect(pendingCache, fetch, insert, h - 1, hi))
      {
        var item := CollectOne(h, fetch, insert, hi);
        if item.None? {
          return None;
        }
        AfterOne(pending, item.value, P.Collect(pendingCache, fetch, insert, h, hi));
        pending := pending + [item.value];
        h := h + 1;
      }
      assert pending + [] == pending;
      return Some(pending);
    }

    /** One round of the second loop. */
    method CollectOne(h: nat, fetch: Fetch<T>, insert: Insert<T>, ghost hi: nat) returns (item: Option<T>)
      requires 1 <= h <= hi
      modifies `pendingCache
      ensures
        var rest := P.Collect(pendingCache, fetch, insert, h, hi);
        P.Collect(old(pendingCache), fetch, insert, h - 1, hi) ==
        if item.None? then (None, pendingCache) else (Prepend(item.value, rest.0), rest.1)
    {
      CollectStep(pendingCache, fetch, insert, h - 1, hi);
      if h in pendingCache {
        return Some(pendingCache[h]);
      }
      item := fetch(h);
      if item.None? {
        return None;
      }
      pendingCache := insert(pendingCache, h, item.value);
    }

    method SetLastSubmittedHeight(height: nat, persists: bool)
      modifies `lastHeight, `entry
      ensures Mark() == SetLast(old(Mark()), height, persists)
    {
      if height > lastHeight {
        lastHeight := height;
        if persists {
          entry := Some(EncodeHeight(height));
        }
      }
    }

    /** advancePastEmptyData; a metadata write that fails is only logged. */
    method AdvancePastEmptyData(height: Option<nat>, stored: Fetch<BlockData>, persists: nat -> bool)
      modifies `lastHeight, `entry
      ensures Mark() == if height.None? then old(Mark()) else AdvanceMark(old(Mark()), height.value, stored, persists)
    {
      if height.None? {
        return;
      }
      var h := lastHeight + 1;
      while h <= height.value
        invariant h == lastHeight + 1
        invariant AdvanceMark(Mark(), height.value, stored, persists)
                  == AdvanceMark(old(Mark()), height.value, stored, persists)
      {
        var data := FetchData(stored, h);
        if data.None? {
          return;
        }
        if |data.value.txs| > 0 {
          return;
        }
        SetLastSubmittedHeight(h, persists(h));
        h := h + 1;
      }
    }
  }

  lemma FetchStep<T>(cache: map<nat, T>, fetch: Fetch<T>, insert: Insert<T>, lo: nat, hi: nat)
    requires lo < hi
    ensures P.FetchMissing(cache, fetch, insert, lo, hi) ==
            if lo + 1 in cache then P.FetchMissing(cache, fetch, insert, lo + 1, hi)
            else if fetch(lo + 1).None? then (false, cache)
            else P.FetchMissing(insert(cache, lo + 1, fetch(lo + 1).value), fetch, insert, lo + 1, hi)
  {
  }

  lemma CollectStep<T>(cache: map<nat, T>, fetch: Fetch<T>, insert: Insert<T>, lo: nat, hi: nat)
    requires lo < hi
    ensures P.Collect(cache, fetch, insert, lo, hi) ==
            if lo + 1 !in cache && fetch(lo + 1).None? then (None, cache)
            else
              var item := if lo + 1 in cache then cache[lo + 1] else fetch(lo + 1).value;
              var after := if lo + 1 in cache then cache else insert(cache, lo + 1, item);
              var rest := P.Collect(after, fetch, insert, lo + 1, hi);
              (Prepend(item, rest.0), rest.1)
  {
  }

  /** What the second loop returns once it has gathered `pending`. */
  ghost function After<T>(pending: seq<T>, rest: (Option<seq<T>>, map<nat, T>)): (Option<seq<T>>, map<nat, T>) {
    (if rest.0.None? then None else Some(pending + rest.0.value), rest.1)
  }

  lemma AfterOne<T>(pending: seq<T>, item: T, rest: (Option<seq<T>>, map<nat, T>))
    ensures After(pending, (Prepend(item, rest.0), rest.1)) == After(pending + [item], rest)
  {
    if rest.0.Some? {
      assert pending + ([item] + rest.0.value) == pending + [item] + rest.0.value;
    }
  }
}

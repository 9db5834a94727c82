/** The block pruner (block/internal/pruner/pruner.go) over the store: each tick deletes one batch of
    old blocks. Durations are nanoseconds. */
module Pruning {
  import opened Basics
  import opened Keys
  import opened Store
  import StoreIndex
  import L = ExecutionLayer
  import opened Chain

  datatype Config = Config(daEnabled: bool, keepRecent: nat, interval: int, blockTime: int)

  /** Go's integer division, which truncates toward zero. */
  function Quotient(a: int, b: int): int
    requires b != 0
  {
    if (a >= 0) == (b > 0) then (if a >= 0 then a else -a) / (if b > 0 then b else -b)
    else -((if a >= 0 then a else -a) / (if b > 0 then b else -b))
  }

  /** Four times the blocks of one interval in unsigned arithmetic, at most 10000. */
  function BatchSize(cfg: Config): nat
    requires cfg.blockTime != 0
  {
    Min((ToUint64(Quotient(cfg.interval, cfg.blockTime)) * 4) % U64, 10000)
  }

  const QUARTER: nat := 0x4000_0000_0000_0000

  /** For a validated interval the batch is empty exactly when an interval holds 2^62 blocks. */
  lemma BatchEmptyIff(cfg: Config)
    requires 0 < cfg.blockTime <= cfg.interval < I64
    ensures BatchSize(cfg) == 0 <==> cfg.interval / cfg.blockTime == QUARTER
  {
    Positive(cfg.interval, cfg.blockTime);
    BatchSizeExact(cfg);
  }

  /** The batch of a validated interval: four times its blocks, at most 10000, wrapping around once at
      2^62 blocks. */
  lemma BatchSizeExact(cfg: Config)
    requires 0 < cfg.blockTime <= cfg.interval < I64
    ensures
      var blocks := cfg.interval / cfg.blockTime;
      BatchSize(cfg) == if blocks < QUARTER then Min(4 * blocks, 10000) else Min(4 * blocks - U64, 10000)
  {
    var n := cfg.interval / cfg.blockTime;
    Positive(cfg.interval, cfg.blockTime);
    assert ToUint64(n) == n;
    if n < QUARTER {
      assert (n * 4) % U64 == n * 4;
    } else {
      assert n * 4 == U64 + (n * 4 - U64);
      assert (n * 4) % U64 == n * 4 - U64;
    }
  }

  lemma Positive(a: int, b: int)
    requires 0 < b <= a
    ensures 1 <= a / b <= a
  {
    var q := a / b;
    assert b * q <= a < b * q + b;
    if q > a {
      Grows(b, q);
    }
  }

  lemma Grows(b: int, q: int)
    requires b >= 1 && q >= 0
    ensures b * q >= q
  {
  }

  // ---------------------------------------------------------------- one tick

  datatype PruneError = NoHeight | BadLastPruned

  /** The pruner's reading of the last pruned height: an entry of another length and the value 0 are
      errors. */
  function LastPrunedEntry(db: Db): Option<nat> {
    if MetaK(LAST_PRUNED_BLOCK_HEIGHT) !in db then Some(0)
    else
      var h := DecodeHeight(db[MetaK(LAST_PRUNED_BLOCK_HEIGHT)]);
      if h.None? || h.value == 0 then None else h
  }

  /** A height is recorded as the last pruned one exactly when its encoding is the entry, and 0 exactly
      when there is none. */
  lemma LastPrunedEntryIff(db: Db, last: nat)
    ensures LastPrunedEntry(db) == Some(last) <==>
            if MetaK(LAST_PRUNED_BLOCK_HEIGHT) in db
            then 0 < last < U64 && db[MetaK(LAST_PRUNED_BLOCK_HEIGHT)] == EncodeHeight(last) else last == 0
  {
    if MetaK(LAST_PRUNED_BLOCK_HEIGHT) in db {
      if last < U64 {
        HeightRoundTrip(last, db[MetaK(LAST_PRUNED_BLOCK_HEIGHT)]);
      } else {
        HeightRoundTrip(0, db[MetaK(LAST_PRUNED_BLOCK_HEIGHT)]);
      }
    }
  }

  /** How far pruning may go: None when there is nothing to prune yet. */
  function Target(db: Db, cfg: Config): Option<nat> {
    if Height(db).None? || (cfg.daEnabled && DAIncluded(db).None?) then None
    else
      var upper := if cfg.daEnabled then Min(Height(db).value, DAIncluded(db).value) else Height(db).value;
      if upper <= cfg.keepRecent then None else Some(upper - cfg.keepRecent)
  }

  /** Fewer than `keep` heights lie above `h` up to `bound`, or there are too few to prune any. */
  predicate Within(bound: nat, keep: nat, h: nat) {
    h + keep > bound || bound <= keep
  }

  /** The heights pruning must not touch: the last ones of the chain and, with a DA layer, the last
      ones that it includes and everything above; all of them while one of the heights is unknown. */
  predicate Protected(db: Db, cfg: Config, h: nat) {
    || Height(db).None? || Within(Height(db).value, cfg.keepRecent, h)
    || (cfg.daEnabled && (DAIncluded(db).None? || Within(DAIncluded(db).value, cfg.keepRecent, h)))
  }

  /** Pruning may go up to `target`: the chain height, or the DA-included height when that is lower and
      there is a DA layer, less the heights to keep. */
  predicate PrunableTo(db: Db, cfg: Config, target: nat) {
    && target > 0 && Height(db).Some? && (cfg.daEnabled ==> DAIncluded(db).Some?)
    && target + cfg.keepRecent
       == if cfg.daEnabled && DAIncluded(db).value < Height(db).value then DAIncluded(db).value else Height(db).value
  }

  lemma TargetIff(db: Db, cfg: Config, target: nat)
    ensures Target(db, cfg) == Some(target) <==> PrunableTo(db, cfg, target)
  {
  }

  /** What is above the target is exactly what is protected. */
  lemma ProtectedIff(db: Db, cfg: Config, h: nat)
    ensures Protected(db, cfg, h) <==> (Target(db, cfg).Some? ==> h > Target(db, cfg).value)
  {
  }

  function BatchEnd(last: nat, batch: nat, target: nat): nat {
    Min((last + batch) % U64, target)
  }

  datatype Ticked = Ticked(error: Option<PruneError>, db: Db)

  /** One tick with a given batch size. */
  function TickBy(db: Db, sha: Digest, cfg: Config, batch: nat): Ticked {
    if Height(db).None? then Ticked(Some(NoHeight), db)
    else if Target(db, cfg).None? then Ticked(None, db)
    else if LastPrunedEntry(db).None? then Ticked(Some(BadLastPruned), db)
    else Ticked(None, PruneBlocks(db, sha, BatchEnd(LastPrunedEntry(db).value, batch, Target(db, cfg).value)))
  }

  function Tick(db: Db, sha: Digest, cfg: Config): Ticked
    requires cfg.blockTime != 0
  {
    TickBy(db, sha, cfg, BatchSize(cfg))
  }

  /** A tick leaves every protected height exactly as it was, its state included, and the chain and
      DA-included heights too. */
  lemma TickKeepsRecent(db: Db, sha: Digest, cfg: Config, batch: nat, h: nat)
    requires Protected(db, cfg, h)
    ensures
      var after := TickBy(db, sha, cfg, batch).db;
      StoreIndex.SameAt(db, after, h) && Height(after) == Height(db) && DAIncluded(after) == DAIncluded(db)
  {
    ProtectedIff(db, cfg, h);
    if Target(db, cfg).Some? && LastPrunedEntry(db).Some? {
      var end := BatchEnd(LastPrunedEntry(db).value, batch, Target(db, cfg).value);
      TargetFits(db, cfg);
      if end > LastPruned(db) {
        StoreIndex.PruneAtHeight(db, sha, end, h);
        StoreIndex.PruneMetadata(db, sha, end);
      }
    }
  }

  /** A tick fails exactly when the height cannot be read, or when there is something to prune and the
      last pruned height cannot; then it changes nothing. */
  lemma TickFailsIff(db: Db, sha: Digest, cfg: Config, batch: nat)
    ensures
      var r := TickBy(db, sha, cfg, batch);
      && (r.error == Some(NoHeight) <==> Height(db).None?)
      && (r.error == Some(BadLastPruned) <==> LastPrunedEntry(db).None? && exists t: nat :: PrunableTo(db, cfg, t))
      && (r.error.Some? ==> r.db == db)
  {
    if Target(db, cfg).Some? {
      TargetIff(db, cfg, Target(db, cfg).value);
    }
    forall t: nat | PrunableTo(db, cfg, t) ensures Target(db, cfg) == Some(t) {
      TargetIff(db, cfg, t);
    }
  }

  lemma TargetFits(db: Db, cfg: Config)
    requires Target(db, cfg).Some?
    ensures Target(db, cfg).value < U64
  {
    if HeightK in db {
      HeightRoundTrip(0, db[HeightK]);
    }
  }

  /** A tick moves the last pruned height to the end of its batch, and only forward. */
  lemma TickAdvances(db: Db, sha: Digest, cfg: Config, last: nat, batch: nat, target: nat)
    requires PrunableTo(db, cfg, target) && LastPrunedEntry(db) == Some(last)
    ensures
      var after := TickBy(db, sha, cfg, batch).db;
      LastPrunedEntry(after) == Some(Max(last, BatchEnd(last, batch, target))) && PrunableTo(after, cfg, target)
  {
    TargetIff(db, cfg, target);
    var end := BatchEnd(last, batch, target);
    TargetFits(db, cfg);
    if end > last {
      StoreIndex.PruneMetadata(db, sha, end);
      PrunedEntry(db, sha, end);
    }
  }

  lemma PrunedEntry(db: Db, sha: Digest, end: nat)
    requires LastPruned(db) < end < U64
    ensures LastPrunedEntry(PruneBlocks(db, sha, end)) == Some(end)
  {
    HeightRoundTrip(end, []);
    StoreIndex.PruneAt(db, sha, end, MetaK(LAST_PRUNED_BLOCK_HEIGHT));
  }

  /** Below the target a tick makes progress exactly when the batch is not empty and its end does not
      wrap around. */
  lemma ProgressIff(db: Db, sha: Digest, cfg: Config, last: nat, batch: nat, target: nat)
    requires batch <= 10000
    requires PrunableTo(db, cfg, target) && LastPrunedEntry(db) == Some(last) && last < target
    ensures
      var after := LastPrunedEntry(TickBy(db, sha, cfg, batch).db);
      after.Some? && (after.value > last <==> batch > 0 && last + batch < U64)
  {
    TickAdvances(db, sha, cfg, last, batch, target);
    TargetIff(db, cfg, target);
    TargetFits(db, cfg);
    MovesIff(last, batch, target);
  }

  lemma MovesIff(last: nat, batch: nat, target: nat)
    requires last < target < U64 && batch <= 10000
    ensures Max(last, BatchEnd(last, batch, target)) > last <==> batch > 0 && last + batch < U64
  {
    Wrap(last + batch);
  }

  lemma Wrap(sum: nat)
    requires sum < U64 + 10001
    ensures sum % U64 == if sum < U64 then sum else sum - U64
  {
  }

  // ---------------------------------------------------------------- runs of ticks

  function Iterate<S>(step: S -> S, s: S, n: nat): S
    decreases n
  {
    if n == 0 then s else Iterate(step, step(s), n - 1)
  }

  function TicksBy(db: Db, sha: Digest, cfg: Config, batch: nat, n: nat): Db {
    Iterate(d => TickBy(d, sha, cfg, batch).db, db, n)
  }

  function Ticks(db: Db, sha: Digest, cfg: Config, n: nat): Db
    requires cfg.blockTime != 0
  {
    TicksBy(db, sha, cfg, BatchSize(cfg), n)
  }

  /** Where one batch leads. */
  function NextPruned(batch: nat, target: nat): nat -> nat {
    last => Max(last, BatchEnd(last, batch, target))
  }

  /** Where n batches lead. */
  function Batches(last: nat, batch: nat, target: nat, n: nat): nat {
    Iterate(NextPruned(batch, target), last, n)
  }

  /** What matters of a database for the fate of one height. */
  datatype Sight = Sight(target: Option<nat>, last: Option<nat>, stored: bool)

  function Look(cfg: Config, h: nat): Db -> Sight {
    d => Sight(Target(d, cfg), LastPrunedEntry(d), HeaderK(h) in d)
  }

  /** `step` moves the last pruned height as `next` says and erases what it passes, as `look` sees it. */
  ghost predicate PrunesBatch(step: Db -> Db, look: Db -> Sight, next: nat -> nat, target: nat, h: nat) {
    forall d :: look(d).target == Some(target) && look(d).last.Some? ==> OneBatch(look(d), look(step(d)), next, h)
  }

  predicate OneBatch(before: Sight, after: Sight, next: nat -> nat, h: nat)
    requires before.last.Some?
  {
    var last := before.last.value;
    && after.target == before.target && after.last == Some(next(last))
    && (!before.stored || last < h <= next(last) ==> !after.stored)
  }

  lemma TickPrunesBatch(sha: Digest, cfg: Config, batch: nat, target: nat, h: nat)
    ensures PrunesBatch(d => TickBy(d, sha, cfg, batch).db, Look(cfg, h), NextPruned(batch, target), target, h)
  {
    forall d | Target(d, cfg) == Some(target) && LastPrunedEntry(d).Some?
      ensures OneBatch(Look(cfg, h)(d), Look(cfg, h)(TickBy(d, sha, cfg, batch).db), NextPruned(batch, target), h)
    {
      TargetIff(d, cfg, target);
      TickAdvances(d, sha, cfg, LastPrunedEntry(d).value, batch, target);
      TargetIff(TickBy(d, sha, cfg, batch).db, cfg, target);
      TickErases(d, sha, cfg, batch, h);
    }
  }

  lemma TickErases(db: Db, sha: Digest, cfg: Config, batch: nat, h: nat)
    requires Target(db, cfg).Some? && LastPrunedEntry(db).Some?
    ensures
      var last, end := LastPrunedEntry(db).value, BatchEnd(LastPrunedEntry(db).value, batch, Target(db, cfg).value);
      HeaderK(h) !in db || last < h <= end ==> HeaderK(h) !in TickBy(db, sha, cfg, batch).db
  {
    var end := BatchEnd(LastPrunedEntry(db).value, batch, Target(db, cfg).value);
    if end > LastPruned(db) {
      StoreIndex.PruneAtHeight(db, sha, end, h);
    }
  }

  lemma {:induction false} BatchesAddUp(
    step: Db -> Db, look: Db -> Sight, next: nat -> nat, target: nat, h: nat, d: Db, last: nat, n: nat)
    requires PrunesBatch(step, look, next, target, h)
    requires look(d).target == Some(target) && look(d).last == Some(last)
    ensures look(Iterate(step, d, n)).last == Some(Iterate(next, last, n))
    ensures !look(d).stored || last < h <= Iterate(next, last, n) ==> !look(Iterate(step, d, n)).stored
    decreases n
  {
    if n > 0 {
      assert OneBatch(look(d), look(step(d)), next, h);
      BatchesAddUp(step, look, next, target, h, step(d), next(last), n - 1);
    }
  }

  /** n ticks on a fixed chain: the last pruned height, and the headers they pass over are gone. */
  lemma TicksAreBatches(db: Db, sha: Digest, cfg: Config, last: nat, batch: nat, target: nat, n: nat, h: nat)
    requires Target(db, cfg) == Some(target) && LastPrunedEntry(db) == Some(last)
    ensures LastPrunedEntry(TicksBy(db, sha, cfg, batch, n)) == Some(Batches(last, batch, target, n))
    ensures last < h <= Batches(last, batch, target, n) ==> HeaderK(h) !in TicksBy(db, sha, cfg, batch, n)
  {
    TickPrunesBatch(sha, cfg, batch, target, h);
    BatchesAddUp(d => TickBy(d, sha, cfg, batch).db, Look(cfg, h), NextPruned(batch, target), target, h, db, last, n);
  }

  lemma {:induction false} BatchesSum(last: nat, batch: nat, target: nat, n: nat)
    requires last <= target && target + batch < U64 && batch <= 10000
    ensures Batches(last, batch, target, n) == Min(last + n * batch, target)
    decreases n
  {
    if n > 0 {
      OneMoreBatch(last, batch, target, n);
      BatchesSum(Max(last, BatchEnd(last, batch, target)), batch, target, n - 1);
    }
  }

  lemma OneMoreBatch(last: nat, batch: nat, target: nat, n: nat)
    requires n > 0 && last <= target && target + batch < U64 && batch <= 10000
    ensures
      var next := Max(last, BatchEnd(last, batch, target));
      next <= target && Min(next + (n - 1) * batch, target) == Min(last + n * batch, target)
  {
    Wrap(last + batch);
    assert n * batch == batch + (n - 1) * batch;
    Product(n - 1, batch);
  }

  lemma Product(n: nat, batch: nat)
    ensures n * batch >= 0
  {
  }

  /** Pruning reaches its target within the distance divided by the batch size, rounded up, and
      then no stored header is left between where it started and the target. */
  lemma PruningConverges(db: Db, sha: Digest, cfg: Config, last: nat, target: nat, n: nat)
    requires cfg.blockTime != 0 && BatchSize(cfg) > 0
    requires PrunableTo(db, cfg, target) && LastPrunedEntry(db) == Some(last)
    requires last <= target && target + BatchSize(cfg) < U64
    requires n >= (target - last + BatchSize(cfg) - 1) / BatchSize(cfg)
    ensures LastPrunedEntry(Ticks(db, sha, cfg, n)) == Some(target)
    ensures forall h: nat :: last < h <= target ==> HeaderK(h) !in Ticks(db, sha, cfg, n)
  {
    var batch := BatchSize(cfg);
    TargetIff(db, cfg, target);
    RoundedUp(target - last, batch, n);
    BatchesSum(last, batch, target, n);
    TicksAreBatches(db, sha, cfg, last, batch, target, n, 0);
    forall h: nat | last < h <= target ensures HeaderK(h) !in TicksBy(db, sha, cfg, batch, n) {
      TicksAreBatches(db, sha, cfg, last, batch, target, n, h);
    }
  }

  /** For a validated interval of less than 2^62 blocks, in terms of the chain alone: the heights up to
      the lower of chain and DA-included height, less those to keep, are gone after their number divided
      by min(4 * interval / blockTime, 10000), rounded up. */
  lemma PruningReaches(db: Db, sha: Digest, cfg: Config, height: nat, upper: nat, last: nat, batch: nat, n: nat)
    requires 0 < cfg.blockTime <= cfg.interval < I64 && cfg.interval / cfg.blockTime < QUARTER
    requires batch == Min(4 * (cfg.interval / cfg.blockTime), 10000)
    requires Height(db) == Some(height) && LastPrunedEntry(db) == Some(last)
    requires if cfg.daEnabled then DAIncluded(db).Some? && upper == Min(height, DAIncluded(db).value) else upper == height
    requires last + cfg.keepRecent <= upper && cfg.keepRecent < upper && upper - cfg.keepRecent + batch < U64
    requires batch > 0 && n >= (upper - cfg.keepRecent - last + batch - 1) / batch
    ensures LastPrunedEntry(Ticks(db, sha, cfg, n)) == Some(upper - cfg.keepRecent)
    ensures forall h: nat :: last < h <= upper - cfg.keepRecent ==> HeaderK(h) !in Ticks(db, sha, cfg, n)
  {
    BatchSizeExact(cfg);
    PruningConverges(db, sha, cfg, last, upper - cfg.keepRecent, n);
  }

  /** On a fixed chain pruning ever reaches its target exactly when the batch is not empty. */
  lemma ConvergesIff(db: Db, sha: Digest, cfg: Config, last: nat, target: nat)
    requires cfg.blockTime != 0
    requires PrunableTo(db, cfg, target) && LastPrunedEntry(db) == Some(last)
    requires last < target && target + BatchSize(cfg) < U64
    ensures (exists n: nat :: LastPrunedEntry(Ticks(db, sha, cfg, n)) == Some(target)) <==> BatchSize(cfg) > 0
  {
    var batch := BatchSize(cfg);
    TargetIff(db, cfg, target);
    if batch > 0 {
      PruningConverges(db, sha, cfg, last, target, (target - last + batch - 1) / batch);
    } else {
      forall n: nat ensures LastPrunedEntry(Ticks(db, sha, cfg, n)) == Some(last) {
        TicksAreBatches(db, sha, cfg, last, batch, target, n, 0);
        BatchesSum(last, batch, target, n);
      }
    }
  }

  lemma RoundedUp(distance: nat, batch: nat, n: nat)
    requires batch > 0 && n >= (distance + batch - 1) / batch
    ensures n * batch >= distance
  {
    var q := (distance + batch - 1) / batch;
    assert q * batch >= distance;
    assert n * batch == q * batch + (n - q) * batch;
    Product(n - q, batch);
  }

  // ---------------------------------------------------------------- a growing chain

  datatype Event = TickEvent | Write(op: StoreIndex.Op)

  function Do(db: Db, sha: Digest, cfg: Config, e: Event): Db
    requires cfg.blockTime != 0
  {
    match e
    case TickEvent => Tick(db, sha, cfg).db
    case Write(op) => StoreIndex.Do(db, sha, op)
  }

  function Run(db: Db, sha: Digest, cfg: Config, events: seq<Event>): Db
    requires cfg.blockTime != 0
    decreases events
  {
    if events == [] then db else Run(Do(db, sha, cfg, events[0]), sha, cfg, events[1..])
  }

  /** No height becomes protected again: the chain grows and its DA-included part too. */
  ghost predicate ProtectionRecedes(db: Db, after: Db, cfg: Config) {
    forall h: nat :: Protected(after, cfg, h) ==> Protected(db, cfg, h)
  }

  ghost predicate GrowingRun(db: Db, sha: Digest, cfg: Config, events: seq<Event>)
    requires cfg.blockTime != 0
    decreases events
  {
    events == [] ||
    (var next := Do(db, sha, cfg, events[0]);
     && (events[0].Write? ==> !events[0].op.RollbackTo? && !events[0].op.PruneTo? && ProtectionRecedes(db, next, cfg))
     && GrowingRun(next, sha, cfg, events[1..]))
  }

  predicate BlockKey(k: Key, h: nat) {
    k == HeaderK(h) || k == DataK(h) || k == SignatureK(h)
  }

  predicate SavesAt(e: Event, h: nat) {
    e.Write? && e.op.Save? && e.op.height == h
  }

  /** While the chain grows and the pruner ticks in between, header, data and signature of every
      height protected at the end are still there, and unchanged unless saved again. */
  lemma {:induction false} RecentBlocksSurvive(db: Db, sha: Digest, cfg: Config, events: seq<Event>, h: nat, k: Key)
    requires cfg.blockTime != 0 && GrowingRun(db, sha, cfg, events) && k in db && BlockKey(k, h)
    requires Protected(Run(db, sha, cfg, events), cfg, h)
    ensures k in Run(db, sha, cfg, events)
    ensures (forall i :: 0 <= i < |events| ==> !SavesAt(events[i], h)) ==> Run(db, sha, cfg, events)[k] == db[k]
    decreases events
  {
    if events != [] {
      var next := Do(db, sha, cfg, events[0]);
      StepGrows(db, sha, cfg, events[0]);
      RunGrows(next, sha, cfg, events[1..]);
      StepKeepsBlock(db, sha, cfg, events[0], h, k);
      RecentBlocksSurvive(next, sha, cfg, events[1..], h, k);
    }
  }

  lemma StepGrows(db: Db, sha: Digest, cfg: Config, e: Event)
    requires cfg.blockTime != 0
    requires e.Write? ==> ProtectionRecedes(db, Do(db, sha, cfg, e), cfg)
    ensures ProtectionRecedes(db, Do(db, sha, cfg, e), cfg)
  {
    if e.TickEvent? {
      forall h: nat | Protected(Do(db, sha, cfg, e), cfg, h) ensures Protected(db, cfg, h) {
        TickKeepsHeights(db, sha, cfg, BatchSize(cfg));
      }
    }
  }

  lemma TickKeepsHeights(db: Db, sha: Digest, cfg: Config, batch: nat)
    ensures
      var after := TickBy(db, sha, cfg, batch).db;
      Height(after) == Height(db) && DAIncluded(after) == DAIncluded(db)
  {
    var h := if Target(db, cfg).Some? then Target(db, cfg).value + 1 else 0;
    ProtectedIff(db, cfg, h);
    TickKeepsRecent(db, sha, cfg, batch, h);
  }

  lemma {:induction false} RunGrows(db: Db, sha: Digest, cfg: Config, events: seq<Event>)
    requires cfg.blockTime != 0 && GrowingRun(db, sha, cfg, events)
    ensures ProtectionRecedes(db, Run(db, sha, cfg, events), cfg)
    decreases events
  {
    if events != [] {
      StepGrows(db, sha, cfg, events[0]);
      RunGrows(Do(db, sha, cfg, events[0]), sha, cfg, events[1..]);
    }
  }

  lemma StepKeepsBlock(db: Db, sha: Digest, cfg: Config, e: Event, h: nat, k: Key)
    requires cfg.blockTime != 0 && k in db && BlockKey(k, h)
    requires e.Write? ==> !e.op.RollbackTo? && !e.op.PruneTo?
    requires e.TickEvent? ==> Protected(db, cfg, h)
    ensures k in Do(db, sha, cfg, e) && (!SavesAt(e, h) ==> Do(db, sha, cfg, e)[k] == db[k])
  {
    if e.TickEvent? {
      TickKeepsRecent(db, sha, cfg, BatchSize(cfg), h);
    }
  }

  // ---------------------------------------------------------------- the execution layer

  /** The height a tick prunes to, in the store and then in the execution layer. */
  function PrunedTo(db: Db, cfg: Config): Option<nat>
    requires cfg.blockTime != 0
  {
    if Height(db).None? || Target(db, cfg).None? || LastPrunedEntry(db).None? then None
    else Some(BatchEnd(LastPrunedEntry(db).value, BatchSize(cfg), Target(db, cfg).value))
  }

  /** What a tick does to the execution layer, when there is one that can be pruned. */
  function TickExec(db: Db, cfg: Config, e: L.Exec): L.Exec
    requires cfg.blockTime != 0
  {
    if PrunedTo(db, cfg).None? then e else L.PruneExec(e, PrunedTo(db, cfg).value)
  }

  /** The execution layer keeps its blocks and results of protected heights, its height and its root. */
  lemma TickExecKeepsRecent(db: Db, cfg: Config, e: L.Exec, h: nat, hash: Hash)
    requires cfg.blockTime != 0 && Protected(db, cfg, h)
    ensures
      var after := TickExec(db, cfg, e);
      && after.height == e.height && after.root == e.root && after.versions == e.versions
      && (h in e.blocks ==> h in after.blocks && after.blocks[h] == e.blocks[h])
      && (hash in e.txResults && e.txResults[hash].height == h ==>
            hash in after.txResults && after.txResults[hash] == e.txResults[hash])
  {
    ProtectedIff(db, cfg, h);
  }

  /** The execution layer holds no block and no result that the store has pruned. */
  ghost predicate ExecInStep(db: Db, e: L.Exec) {
    LastPrunedEntry(db).Some? ==>
      && (forall h :: h in e.blocks ==> h > LastPrunedEntry(db).value)
      && (forall k :: k in e.txResults ==> e.txResults[k].height > LastPrunedEntry(db).value)
  }

  /** Store and execution layer are pruned together. */
  lemma TickKeepsInStep(db: Db, sha: Digest, cfg: Config, e: L.Exec)
    requires cfg.blockTime != 0 && ExecInStep(db, e)
    ensures ExecInStep(Tick(db, sha, cfg).db, TickExec(db, cfg, e))
  {
    if Target(db, cfg).Some? && LastPrunedEntry(db).Some? {
      TargetIff(db, cfg, Target(db, cfg).value);
      TickAdvances(db, sha, cfg, LastPrunedEntry(db).value, BatchSize(cfg), Target(db, cfg).value);
    }
  }
}

module Pruners {
  import opened Basics
  import opened Keys
  import opened Store
  import opened StoreObjects
  import opened Pruning
  import opened CosmosExec

  class Pruner {
    const store: DefaultStore
    const execPruner: CosmosExecutor?
    const cfg: Config

    constructor (store: DefaultStore, execPruner: CosmosExecutor?, cfg: Config)
      ensures this.store == store && this.execPruner == execPruner && this.cfg == cfg
    {
      this.store, this.execPruner, this.cfg := store, execPruner, cfg;
    }

    method PruneBlocks() returns (err: Option<PruneError>)
      requires cfg.blockTime != 0
      modifies store, execPruner
      ensures Ticked(err, store.db) == Tick(old(store.db), store.sha, cfg)
      ensures execPruner != null ==> execPruner.State() == TickExec(old(store.db), cfg, old(execPruner.State()))
    {
      var storeHeight := Height(store.db);
      if storeHeight.None? {
        return Some(NoHeight);
      }
      var targetHeight := TargetHeight(storeHeight.value);
      if targetHeight.None? {
        return None;
      }
      var lastPruned := GetLastPrunedBlockHeight();
      if lastPruned.None? {
        return Some(BadLastPruned);
      }
      var batchSize := BatchSize(cfg);
      var batchEnd := Min((lastPruned.value + batchSize) % U64, targetHeight.value);
      store.PruneBlocks(batchEnd);
      if execPruner != null {
        var _ := execPruner.PruneExec(false, batchEnd);
      }
      return None;
    }

    method TargetHeight(storeHeight: nat) returns (target: Option<nat>)
      requires Height(store.db) == Some(storeHeight)
      ensures target == Target(store.db, cfg)
    {
      var upperBound := storeHeight;
      if cfg.daEnabled {
        var daIncluded := DAIncluded(store.db);
        if daIncluded.None? {
          return None;
        }
        upperBound := Min(storeHeight, daIncluded.value);
      }
      if upperBound <= cfg.keepRecent {
        return None;
      }
      return Some(upperBound - cfg.keepRecent);
    }

    method GetLastPrunedBlockHeight() returns (last: Option<nat>)
      ensures last == LastPrunedEntry(store.db)
    {
      if MetaK(LAST_PRUNED_BLOCK_HEIGHT) !in store.db {
        return Some(0);
      }
      var entry := store.db[MetaK(LAST_PRUNED_BLOCK_HEIGHT)];
      if |entry| != 8 {
        return None;
      }
      var h := DecodeHeight(entry);
      if h.value == 0 {
        return None;
      }
      return h;
    }
  }
}

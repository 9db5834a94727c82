/** Replayer.SyncToHeight (block/internal/common/replay.go): bringing the execution layer to a
    stored height by rolling it back or by executing stored blocks again. */
module Replay {
  import opened Basics
  import opened Chain
  import opened NodeTypes
  import opened CosmosExec
  import L = ExecutionLayer

  datatype SyncError = BlockMissing | PrevStateMissing | ExecFailed(cause: L.ExecError) | AppHashMismatch

  /** How a sync ended, and what it left on disk and in the execution layer. */
  datatype SyncOut = SyncOut(error: Option<SyncError>, disk: Disk, exec: L.Exec)

  /** The state block `h` is executed on: genesis, or the one stored for the height below. */
  function PrevState(p: Params, disk: Disk, h: nat): Option<ChainState>
    requires h >= 1 && h in disk.blocks
  {
    if h == p.initialHeight then Some(GenesisState(p, disk.blocks[h].header.appHash, 0))
    else if h - 1 in disk.states then Some(disk.states[h - 1])
    else None
  }

  function ReplayBlock(p: Params, disk: Disk, e: L.Exec, h: nat): SyncOut
    requires h >= 1
  {
    if h !in disk.blocks then SyncOut(Some(BlockMissing), disk, e)
    else
      var b := disk.blocks[h];
      var prev := PrevState(p, disk, h);
      if prev.None? then SyncOut(Some(PrevStateMissing), disk, e)
      else
        var done := L.ExecuteTxs(p.app, e, b.data.txs, h, HeaderTime(b.header), prev.value.appHash);
        if done.result.Err? then SyncOut(Some(ExecFailed(done.result.error)), disk, done.state)
        else if h in disk.states && disk.states[h].appHash != done.result.value then
          SyncOut(Some(AppHashMismatch), disk, done.state)
        else
          var next := NextState(prev.value, b.header, done.result.value, p.hash);
          SyncOut(None, disk.(states := disk.states[next.lastBlockHeight := next]), done.state)
  }

  /** Replays heights `h`..`target`, stopping at the first failure. */
  function ReplayRange(p: Params, disk: Disk, e: L.Exec, h: nat, target: nat): SyncOut
    requires h >= 1
    decreases target + 1 - h
  {
    if h > target then SyncOut(None, disk, e)
    else
      var r := ReplayBlock(p, disk, e, h);
      if r.error.Some? then r else ReplayRange(p, r.disk, r.exec, h + 1, target)
  }

  function SyncToHeight(p: Params, disk: Disk, e: L.Exec, target: nat): SyncOut {
    if target < p.initialHeight then SyncOut(None, disk, e)
    else if e.height > target then
      var r := L.Rollback(e, target);
      SyncOut(if r.result.Ok? then None else Some(ExecFailed(r.result.error)), disk, r.state)
    else if e.height < target then
      if target !in disk.blocks then SyncOut(Some(BlockMissing), disk, e)
      else ReplayRange(p, disk, e, e.height + 1, target)
    else SyncOut(None, disk, e)
  }

  /** The Replayer over the store and executor objects it shares with the node. */
  class Replayer {
    const p: Params
    const store: NodeStore
    const exec: CosmosExecutor

    ghost predicate Valid() {
      exec.app == p.app
    }

    constructor (p: Params, store: NodeStore, exec: CosmosExecutor)
      requires exec.app == p.app
      ensures this.p == p && this.store == store && this.exec == exec && Valid()
    {
      this.p, this.store, this.exec := p, store, exec;
    }

    method ReplayOne(h: nat) returns (err: Option<SyncError>)
      requires Valid() && h >= 1
      modifies store, exec
      ensures SyncOut(err, store.Contents(), exec.State())
              == ReplayBlock(p, old(store.Contents()), old(exec.State()), h)
    {
      if h !in store.blocks {
        return Some(BlockMissing);
      }
      var header, data := store.blocks[h].header, store.blocks[h].data;
      var prevState;
      if h == p.initialHeight {
        prevState := GenesisState(p, header.appHash, 0);
      } else if h - 1 in store.states {
        prevState := store.states[h - 1];
      } else {
        return Some(PrevStateMissing);
      }
      var res := exec.ExecuteTxs(false, data.txs, h, HeaderTime(header), prevState.appHash);
      if res.Err? {
        return Some(ExecFailed(res.error));
      }
      var newAppHash := res.value;
      if h in store.states && store.states[h].appHash != newAppHash {
        return Some(AppHashMismatch);
      }
      var newState := NextState(prevState, header, newAppHash, p.hash);
      store.states := store.states[newState.lastBlockHeight := newState];
      return None;
    }

    method ReplayFrom(from: nat, targetHeight: nat) returns (err: Option<SyncError>)
      requires Valid() && from >= 1
      modifies store, exec
      ensures SyncOut(err, store.Contents(), exec.State())
              == ReplayRange(p, old(store.Contents()), old(exec.State()), from, targetHeight)
    {
      ghost var goal := ReplayRange(p, store.Contents(), exec.State(), from, targetHeight);
      var height := from;
      while height <= targetHeight
        invariant from <= height
        invariant ReplayRange(p, store.Contents(), exec.State(), height, targetHeight) == goal
        decreases targetHeight + 1 - height
      {
        err := ReplayOne(height);
        if err.Some? {
          return err;
        }
        height := height + 1;
      }
      return None;
    }

    method Sync(targetHeight: nat) returns (err: Option<SyncError>)
      requires Valid()
      modifies store, exec
      ensures SyncOut(err, store.Contents(), exec.State())
              == SyncToHeight(p, old(store.Contents()), old(exec.State()), targetHeight)
    {
      if targetHeight < p.initialHeight {
        return None;
      }
      var execHeight := exec.GetLatestHeight();
      if execHeight > targetHeight {
        var r := exec.Rollback(false, targetHeight);
        return if r.Ok? then None else Some(ExecFailed(r.error));
      }
      if execHeight < targetHeight {
        if targetHeight !in store.blocks {
          return Some(BlockMissing);
        }
        err := ReplayFrom(execHeight + 1, targetHeight);
        return err;
      }
      return None;
    }
  }

  // ---------------------------------------------------------------- what replay computes

  /** Executing the stored blocks above `e.height` up to `h` directly, each on the root the
      previous one left behind. */
  function DirectExec(p: Params, blocks: map<nat, Block>, e: L.Exec, h: nat): L.Exec {
    if h <= e.height || h !in blocks then e
    else
      var before := DirectExec(p, blocks, e, h - 1);
      L.ExecuteTxs(p.app, before, blocks[h].data.txs, h, HeaderTime(blocks[h].header), before.root).state
  }

  ghost predicate Stored(blocks: map<nat, Block>, from: nat, to: nat) {
    forall h :: from < h <= to ==> h in blocks
  }

  lemma {:induction false} DirectHeight(p: Params, blocks: map<nat, Block>, e: L.Exec, h: nat)
    requires e.initialized && h >= e.height && Stored(blocks, e.height, h)
    ensures DirectExec(p, blocks, e, h).height == h && DirectExec(p, blocks, e, h).initialized
  {
    if h > e.height {
      DirectHeight(p, blocks, e, h - 1);
    }
  }

  /** Direct execution may be cut after the first block. */
  lemma {:induction false} DirectShift(p: Params, blocks: map<nat, Block>, e: L.Exec, h: nat)
    requires e.initialized && h > e.height && Stored(blocks, e.height, h)
    ensures DirectExec(p, blocks, DirectExec(p, blocks, e, e.height + 1), h) == DirectExec(p, blocks, e, h)
  {
    DirectHeight(p, blocks, e, e.height + 1);
    if h > e.height + 1 {
      DirectShift(p, blocks, e, h - 1);
    }
  }

  /** When a replay from behind succeeds, stated over the disk it starts from: the blocks are
      there, the first one continues the executor's root, a genesis block continues the root
      computed below it, and every recorded app hash is the one direct execution gives. */
  ghost predicate Replayable(p: Params, disk: Disk, e: L.Exec, target: nat) {
    && e.initialized
    && Stored(disk.blocks, e.height, target)
    && (target > e.height && e.height + 1 != p.initialHeight ==>
          e.height in disk.states && disk.states[e.height].appHash == e.root)
    && (e.height < p.initialHeight <= target ==>
          disk.blocks[p.initialHeight].header.appHash == DirectExec(p, disk.blocks, e, p.initialHeight - 1).root)
    && (forall h :: e.height < h <= target && h in disk.states ==>
          disk.states[h].appHash == DirectExec(p, disk.blocks, e, h).root)
  }

  /** What a successful replay up to `target` leaves behind. */
  ghost predicate Replayed(p: Params, disk: Disk, e: L.Exec, target: nat, r: SyncOut) {
    && r.error.None?
    && r.exec == DirectExec(p, disk.blocks, e, target) && r.exec.height == target
    && r.disk == disk.(states := r.disk.states)
    && (forall h :: h in r.disk.states && (h <= e.height || h > target) ==> h in disk.states)
    && (forall h :: h in disk.states ==>
          && h in r.disk.states && r.disk.states[h].appHash == disk.states[h].appHash
          && (h <= e.height || h > target ==> r.disk.states[h] == disk.states[h]))
    && (forall h :: e.height < h <= target ==>
          h in r.disk.states && r.disk.states[h].appHash == DirectExec(p, disk.blocks, e, h).root)
  }

  /** The next stored block was built on the root the executor is at. */
  ghost predicate Continues(p: Params, disk: Disk, e: L.Exec)
    requires e.height + 1 in disk.blocks
  {
    if e.height + 1 == p.initialHeight then disk.blocks[p.initialHeight].header.appHash == e.root
    else e.height in disk.states && disk.states[e.height].appHash == e.root
  }

  /** A successful replay of one block: the executor is where direct execution leaves it, ... */
  lemma OneBlockExecuted(p: Params, disk: Disk, e: L.Exec)
    ensures
      var r := ReplayBlock(p, disk, e, e.height + 1);
      r.error.None? ==>
        && e.initialized && e.height + 1 in disk.blocks && Continues(p, disk, e)
        && r.exec == DirectExec(p, disk.blocks, e, e.height + 1)
        && r.exec.height == e.height + 1 && r.exec.initialized
  {
    assert DirectExec(p, disk.blocks, e, e.height) == e;
  }

  /** ... and one state was written, with the resulting root. */
  lemma OneStateWritten(p: Params, disk: Disk, e: L.Exec)
    requires WellKeyed(disk)
    ensures
      var h := e.height + 1;
      var r := ReplayBlock(p, disk, e, h);
      r.error.None? ==>
        && h in r.disk.states && r.disk == disk.(states := disk.states[h := r.disk.states[h]])
        && r.disk.states[h].appHash == r.exec.root && r.disk.states[h].lastBlockHeight == h
        && (h in disk.states ==> disk.states[h].appHash == r.exec.root)
  {
  }

  lemma OneBlockReplayed(p: Params, disk: Disk, e: L.Exec, r: SyncOut)
    requires WellKeyed(disk) && r == ReplayBlock(p, disk, e, e.height + 1) && r.error.None?
    ensures e.initialized && e.height + 1 in disk.blocks && r.exec.initialized
    ensures Replayed(p, disk, e, e.height + 1, r) && Continues(p, disk, e) && WellKeyed(r.disk)
  {
    OneBlockExecuted(p, disk, e);
    OneStateWritten(p, disk, e);
    StateAdded(p, disk, e, e.height + 1, r, r.disk.states[e.height + 1]);
  }

  lemma StateAdded(p: Params, disk: Disk, e: L.Exec, h: nat, r: SyncOut, s: ChainState)
    requires WellKeyed(disk) && h == e.height + 1 && r.error.None?
    requires r.exec == DirectExec(p, disk.blocks, e, h) && r.exec.height == h
    requires r.disk == disk.(states := disk.states[h := s])
    requires s.appHash == r.exec.root && s.lastBlockHeight == h && (h in disk.states ==> disk.states[h].appHash == s.appHash)
    ensures Replayed(p, disk, e, h, r) && WellKeyed(r.disk)
  {
  }

  lemma FirstBlockSucceeds(p: Params, disk: Disk, e: L.Exec, target: nat)
    requires Replayable(p, disk, e, target) && e.height < target
    ensures ReplayBlock(p, disk, e, e.height + 1).error.None?
  {
    var h := e.height + 1;
    assert h in disk.blocks;
    assert DirectExec(p, disk.blocks, e, e.height) == e;
    var prev := PrevState(p, disk, h);
    assert prev.Some? && prev.value.appHash == e.root;
    assert h in disk.states ==> disk.states[h].appHash == DirectExec(p, disk.blocks, e, h).root;
  }

  /** After the first block, the rest is Replayable exactly when the whole was. */
  lemma ReplayableStep(p: Params, disk: Disk, e: L.Exec, target: nat, r: SyncOut)
    requires e.initialized && e.height < target && r.exec.initialized
    requires e.height + 1 in disk.blocks && Replayed(p, disk, e, e.height + 1, r)
    requires Continues(p, disk, e)
    requires SameExecution(p, disk.blocks, r.exec, e, target)
    ensures Replayable(p, disk, e, target) <==> Replayable(p, r.disk, r.exec, target)
  {
    assert Stored(disk.blocks, e.height, target) <==> Stored(disk.blocks, e.height + 1, target);
    assert DirectExec(p, disk.blocks, e, e.height) == e;
  }

  /** Where the blocks are stored, direct execution from `a` and from `b` agrees above `b`. */
  ghost predicate SameExecution(p: Params, blocks: map<nat, Block>, a: L.Exec, b: L.Exec, target: nat) {
    Stored(blocks, b.height, target) ==>
      forall h :: b.height < h <= target ==> DirectExec(p, blocks, a, h) == DirectExec(p, blocks, b, h)
  }

  lemma ExecutionContinues(p: Params, blocks: map<nat, Block>, e: L.Exec, target: nat)
    requires e.initialized && e.height < target
    ensures SameExecution(p, blocks, DirectExec(p, blocks, e, e.height + 1), e, target)
  {
    if Stored(blocks, e.height, target) {
      forall h | e.height < h <= target
        ensures DirectExec(p, blocks, DirectExec(p, blocks, e, e.height + 1), h) == DirectExec(p, blocks, e, h)
      {
        DirectShift(p, blocks, e, h);
      }
    }
  }

  lemma ReplayedTrans(p: Params, disk: Disk, e: L.Exec, target: nat, r: SyncOut, q: SyncOut)
    requires e.height < target
    requires Replayed(p, disk, e, e.height + 1, r) && Replayed(p, r.disk, r.exec, target, q)
    requires Stored(disk.blocks, e.height, target) && SameExecution(p, disk.blocks, r.exec, e, target)
    ensures Replayed(p, disk, e, target, q)
  {
  }

  /** The verdict on a finished replay: success exactly on a Replayable disk, with the executor
      precisely where direct execution of the stored blocks would leave it. */
  ghost predicate ExactReplay(p: Params, disk: Disk, e: L.Exec, target: nat, r: SyncOut) {
    if Replayable(p, disk, e, target) then Replayed(p, disk, e, target, r) else r.error.Some?
  }

  lemma {:induction false} ReplayRangeExact(p: Params, disk: Disk, e: L.Exec, target: nat)
    requires WellKeyed(disk) && e.height <= target && e.initialized
    ensures ExactReplay(p, disk, e, target, ReplayRange(p, disk, e, e.height + 1, target))
    decreases target - e.height
  {
    if e.height == target {
      NothingToReplay(p, disk, e);
    } else {
      var r := FirstBlock(p, disk, e, target);
      if r.error.None? {
        ReplayRangeExact(p, r.disk, r.exec, target);
      }
    }
  }

  /** What the first block decides: on failure the verdict, on success that the rest has the verdict. */
  lemma FirstBlock(p: Params, disk: Disk, e: L.Exec, target: nat) returns (r: SyncOut)
    requires WellKeyed(disk) && e.height < target
    ensures r.error.None? ==>
              && WellKeyed(r.disk) && r.exec.initialized && r.exec.height == e.height + 1
              && ReplayRange(p, disk, e, e.height + 1, target) == ReplayRange(p, r.disk, r.exec, e.height + 2, target)
              && forall q :: ExactReplay(p, r.disk, r.exec, target, q) ==> ExactReplay(p, disk, e, target, q)
    ensures r.error.Some? ==>
              ReplayRange(p, disk, e, e.height + 1, target) == r && ExactReplay(p, disk, e, target, r)
  {
    r := ReplayBlock(p, disk, e, e.height + 1);
    if r.error.None? {
      OneBlockReplayed(p, disk, e, r);
      forall q | ExactReplay(p, r.disk, r.exec, target, q) ensures ExactReplay(p, disk, e, target, q) {
        AfterFirstBlock(p, disk, e, target, r, q);
      }
    } else {
      FirstBlockFails(p, disk, e, target, r);
    }
  }

  lemma FirstBlockFails(p: Params, disk: Disk, e: L.Exec, target: nat, r: SyncOut)
    requires e.height < target && r == ReplayBlock(p, disk, e, e.height + 1) && r.error.Some?
    ensures ExactReplay(p, disk, e, target, r)
  {
    if Replayable(p, disk, e, target) {
      FirstBlockSucceeds(p, disk, e, target);
    }
  }

  lemma NothingToReplay(p: Params, disk: Disk, e: L.Exec)
    requires e.initialized
    ensures ExactReplay(p, disk, e, e.height, SyncOut(None, disk, e))
  {
    assert disk == disk.(states := disk.states);
  }

  lemma AfterFirstBlock(p: Params, disk: Disk, e: L.Exec, target: nat, r: SyncOut, q: SyncOut)
    requires WellKeyed(disk) && e.height < target
    requires r == ReplayBlock(p, disk, e, e.height + 1) && r.error.None?
    requires ExactReplay(p, r.disk, r.exec, target, q)
    ensures ExactReplay(p, disk, e, target, q)
  {
    OneBlockReplayed(p, disk, e, r);
    ExecutionContinues(p, disk.blocks, e, target);
    ReplayableStep(p, disk, e, target, r);
    if q.error.None? {
      ReplayedTrans(p, disk, e, target, r, q);
    }
  }

  /** Replay refines direct execution: from behind, a successful sync ends at the target with the
      executor that direct execution gives, every app hash already recorded is unchanged, and the
      sync succeeds exactly when the disk is Replayable. */
  lemma SyncFromBehind(p: Params, disk: Disk, e: L.Exec, target: nat)
    requires WellKeyed(disk) && e.initialized && e.height < target && p.initialHeight <= target
    ensures
      var r := SyncToHeight(p, disk, e, target);
      && (r.error.None? <==> Replayable(p, disk, e, target))
      && (r.error.None? ==> Replayed(p, disk, e, target, r))
  {
    if target in disk.blocks {
      ReplayRangeExact(p, disk, e, target);
      Verdict(p, disk, e, target, ReplayRange(p, disk, e, e.height + 1, target));
    } else {
      assert !Stored(disk.blocks, e.height, target);
    }
  }

  lemma Verdict(p: Params, disk: Disk, e: L.Exec, target: nat, r: SyncOut)
    requires ExactReplay(p, disk, e, target, r)
    ensures r.error.None? <==> Replayable(p, disk, e, target)
    ensures r.error.None? ==> Replayed(p, disk, e, target, r)
  {
  }

  /** Replaying a block rewrites its stored state. When that state is the one block production
      stored, only its DA height can change, and the state is kept exactly when the DA height is
      the predecessor's: the sequencer's DA height recorded at production time is lost otherwise. */
  lemma ReplayKeepsStateIffSameDAHeight(p: Params, disk: Disk, e: L.Exec, h: nat)
    requires WellKeyed(disk) && h >= 1 && h in disk.blocks && h in disk.states && PrevState(p, disk, h).Some?
    requires
      var s, b, prev := disk.states[h], disk.blocks[h], PrevState(p, disk, h).value;
      s == NextState(prev, b.header, s.appHash, p.hash).(daHeight := s.daHeight)
    requires ReplayBlock(p, disk, e, h).error.None?
    ensures
      var prev, after := PrevState(p, disk, h).value, ReplayBlock(p, disk, e, h).disk.states[h];
      && after == disk.states[h].(daHeight := prev.daHeight)
      && (after == disk.states[h] <==> disk.states[h].daHeight == prev.daHeight)
  {
    assert disk.blocks[h].header.height == h;
  }
}

/** The Executor object of block/internal/executing, as imperative code over the store and the
    execution layer. Each method returns, as a ghost result, the path of NodeMachine steps it took:
    the state after every prefix of a path is one a crash at that point would leave behind, so what
    NodeSafety proves of all runs holds of this code. `faults` says where the environment fails. */
module BlockProducer {
  import opened Basics
  import opened Chain
  import opened NodeTypes
  import opened CosmosExec
  import opened Replay
  import M = NodeMachine

  lemma Extend(p: Params, n0: M.Node, path: seq<M.Label>, n: M.Node, l: M.Label)
    requires M.Run(p, n0, path) == Some(n) && M.Next(p, n, l).Some?
    ensures M.Run(p, n0, path + [l]) == M.Next(p, n, l)
  {
    M.RunAppend(p, n0, path, [l]);
    assert [l][1..] == [];
  }

  class Executor {
    const p: Params
    const store: NodeStore
    const exec: CosmosExecutor
    const guard: SequenceGuard
    var lastState: ChainState
    var hasPendingBlock: bool
    var lastBlockInfo: Option<M.LastBlock>
    ghost var signed: set<Header>

    ghost predicate Valid() reads this, guard {
      ValidParams(p) && exec.app == p.app && guard.Valid()
    }

    /** The machine state of the running process, its current call being at `pc`. */
    ghost function At(pc: M.Pc): M.Node reads this, store, exec, guard {
      M.Node(store.Contents(), exec.State(),
             M.Running(M.Memory(lastState, hasPendingBlock, lastBlockInfo, guard.errCount, pc)), signed)
    }

    ghost function NotRunning(proc: M.Proc): M.Node reads this, store, exec {
      M.Node(store.Contents(), exec.State(), proc, signed)
    }

    constructor (p: Params, store: NodeStore, exec: CosmosExecutor, ghost history: set<Header>)
      requires ValidParams(p) && exec.app == p.app
      ensures this.p == p && this.store == store && this.exec == exec && signed == history
      ensures fresh(guard) && guard.errCount == 0 && Valid()
    {
      this.p, this.store, this.exec, this.signed := p, store, exec, history;
      guard := new SequenceGuard();
      lastState := GenesisState(p, [], 0);
      hasPendingBlock, lastBlockInfo := false, None;
    }

    /** Loads the stored state, or initializes a new chain. */
    method LoadState() returns (state: Option<ChainState>)
      requires Valid()
      modifies exec
      ensures M.Next(p, old(NotRunning(M.Down)), M.Boot)
              == Some(NotRunning(if state.Some? then M.Loaded(state.value) else M.Down))
    {
      if store.height in store.states {
        return Some(store.states[store.height]);
      }
      var r := exec.InitChain(false, p.initialHeight, p.chainId);
      if r.Err? {
        return None;
      }
      return Some(GenesisState(p, r.value, p.daStartHeight));
    }

    /** Writes height and state in one batch; SetHeight never lowers the height. */
    method PersistState(state: ChainState)
      modifies store
      ensures M.Next(p, old(NotRunning(M.Loaded(state))), M.BootPersist) == Some(NotRunning(M.Persisted(state)))
    {
      if state.lastBlockHeight > store.height {
        store.height := state.lastBlockHeight;
      }
      store.states := store.states[state.lastBlockHeight := state];
    }

    /** Notes a pending block, warms the last-block cache and syncs the execution layer. */
    method WarmAndSync(state: ChainState) returns (ok: bool)
      requires Valid() && guard.errCount == 0 && lastState == state
      modifies `hasPendingBlock, `lastBlockInfo, store, exec
      ensures M.Next(p, old(NotRunning(M.Persisted(state))), M.BootSync)
              == Some(if ok then At(M.Idle) else NotRunning(M.Down))
    {
      hasPendingBlock := store.pendingHeader.Some?;
      lastBlockInfo := None;
      if state.lastBlockHeight > 0 && state.lastBlockHeight in store.blocks {
        var b := store.blocks[state.lastBlockHeight];
        lastBlockInfo := Some(M.LastBlock(p.hash(b.header), p.dataHash(b.data)));
      }
      var replayer := new Replayer(p, store, exec);
      var err := replayer.Sync(state.lastBlockHeight);
      return err.None?;
    }

    /** initializeState: load or create the state, persist it, note a pending block, warm the cache
        and bring the execution layer to the stored height. */
    method InitializeState() returns (ok: bool, ghost path: seq<M.Label>)
      requires Valid() && guard.errCount == 0
      modifies this, store, exec
      ensures Valid() && signed == old(signed)
      ensures path == if M.Next(p, old(NotRunning(M.Down)), M.Boot).value.proc.Down? then [M.Boot]
                      else [M.Boot, M.BootPersist, M.BootSync]
      ensures M.Run(p, old(NotRunning(M.Down)), path) == Some(if ok then At(M.Idle) else NotRunning(M.Down))
    {
      ghost var n0 := NotRunning(M.Down);
      var loaded := LoadState();
      Extend(p, n0, [], n0, M.Boot);
      path := [M.Boot];
      if loaded.None? {
        return false, path;
      }
      lastState := loaded.value;
      ghost var n1 := NotRunning(M.Loaded(lastState));
      PersistState(lastState);
      Extend(p, n0, path, n1, M.BootPersist);
      path := path + [M.BootPersist];
      ghost var n2 := NotRunning(M.Persisted(lastState));
      ok := WarmAndSync(lastState);
      Extend(p, n0, path, n2, M.BootSync);
      path := path + [M.BootSync];
    }

    /** The pending block, if its header is there; a header without data is an error. */
    method GetPendingBlock() returns (r: Result<Option<Block>, ()>)
      ensures store.pendingHeader.None? ==> r == Ok(None)
      ensures store.pendingHeader.Some? && store.pendingData.None? ==> r == Err(())
      ensures store.pendingHeader.Some? && store.pendingData.Some? ==>
                r == Ok(Some(Block(store.pendingHeader.value, store.pendingData.value)))
    {
      if store.pendingHeader.None? {
        return Ok(None);
      }
      if store.pendingData.None? {
        return Err(());
      }
      return Ok(Some(Block(store.pendingHeader.value, store.pendingData.value)));
    }

    /** Both metadata entries are written by one batch. */
    method SavePendingBlock(b: Block, fault: bool) returns (ok: bool)
      modifies store
      ensures ok == !fault
      ensures store.Contents() == if fault then old(store.Contents())
                                  else old(store.Contents()).(pendingHeader := Some(b.header), pendingData := Some(b.data))
    {
      if fault {
        return false;
      }
      store.pendingHeader, store.pendingData := Some(b.header), Some(b.data);
      return true;
    }

    method CreateBlock(height: nat, batch: M.Batch) returns (b: Option<Block>)
      requires height == lastState.lastBlockHeight + 1
      ensures b == M.CreateBlock(p, store.Contents(), At(M.Idle).proc.mem, batch)
    {
      var headerTime := ToUint64(p.startTime);
      var lastHeaderHash, lastDataHash: Hash := [], [];
      if height > p.initialHeight {
        headerTime := ToUint64(batch.time);
        if lastBlockInfo.Some? {
          lastHeaderHash, lastDataHash := lastBlockInfo.value.headerHash, lastBlockInfo.value.dataHash;
        } else {
          if height - 1 !in store.blocks {
            return None;
          }
          var last := store.blocks[height - 1];
          lastHeaderHash, lastDataHash := p.hash(last.header), p.dataHash(last.data);
        }
      }
      var dataHash := if |batch.txs| == 0 then p.emptyTxsHash else p.commitment(batch.txs);
      var header := Header(lastState.version, p.chainId, height, headerTime, lastHeaderHash, dataHash,
                           lastState.appHash, p.validatorHash, p.proposer);
      return Some(Block(header, Data(p.chainId, height, headerTime, lastDataHash, batch.txs)));
    }

    /** ProduceBlock up to the point where a block is saved as pending, or no block is to be had. */
    method ObtainBlock(batch: Option<M.Batch>, faults: M.Faults) returns (b: Option<Block>, ghost path: seq<M.Label>)
      requires Valid()
      modifies store
      ensures path == M.ObtainPath(p, old(At(M.Idle)), batch, faults.save)
      ensures M.Run(p, old(At(M.Idle)), path) == Some(At(if b.Some? then M.Saved(b.value) else M.Idle))
    {
      ghost var n0 := At(M.Idle);
      path := [];
      b := None;
      var newHeight := lastState.lastBlockHeight + 1;
      Extend(p, n0, path, n0, M.Begin(batch));
      path := [M.Begin(batch)];
      if hasPendingBlock {
        var pending := GetPendingBlock();
        if pending.Err? {
          return None, path;
        }
        if pending.value.Some? && pending.value.value.header.height == newHeight {
          return Some(pending.value.value), path;
        }
      }
      if batch.None? {
        return None, path;
      }
      var created := CreateBlock(newHeight, batch.value);
      if created.None? {
        return None, path;
      }
      ghost var n1 := At(M.Created(created.value));
      var ok := SavePendingBlock(created.value, faults.save);
      if !ok {
        Extend(p, n0, path, n1, M.Abort);
        return None, path + [M.Abort];
      }
      Extend(p, n0, path, n1, M.SavePending);
      return created, path + [M.SavePending];
    }
  
    /** ApplyBlock: executes the block and derives the next state. */
    method ApplyBlock(b: Block, daHeight: nat, fault: bool) returns (next: Option<ChainState>)
      requires Valid()
      modifies exec
      ensures next.Some? ==> M.Next(p, old(At(M.Saved(b))), M.Execute(daHeight)) == Some(At(M.Executed(b, next.value)))
      ensures next.None? ==> M.Next(p, old(At(M.Saved(b))), M.Abort) == Some(At(M.Idle))
      ensures next.Some? <==> !fault && M.Next(p, old(At(M.Saved(b))), M.Execute(daHeight)).Some?
    {
      var r := exec.ExecuteTxs(fault, b.data.txs, b.header.height, HeaderTime(b.header), lastState.appHash);
      if r.Err? {
        return None;
      }
      return Some(NextState(lastState, b.header, r.value, p.hash).(daHeight := daHeight));
    }

    /** Saves block, height and state in one batch and moves the in-memory state on. */
    method CommitBlock(b: Block, next: ChainState)
      modifies `lastState, `hasPendingBlock, `lastBlockInfo, store
      ensures store.Contents() == old(store.Contents()).(
                height := Max(old(store.height), old(lastState).lastBlockHeight + 1),
                blocks := old(store.blocks)[b.header.height := b],
                states := old(store.states)[next.lastBlockHeight := next])
      ensures lastState == next && !hasPendingBlock
      ensures lastBlockInfo == Some(M.LastBlock(next.lastHeaderHash, p.dataHash(b.data)))
    {
      var newHeight := lastState.lastBlockHeight + 1;
      store.blocks := store.blocks[b.header.height := b];
      if newHeight > store.height {
        store.height := newHeight;
      }
      store.states := store.states[next.lastBlockHeight := next];
      hasPendingBlock := false;
      lastState := next;
      lastBlockInfo := Some(M.LastBlock(next.lastHeaderHash, p.dataHash(b.data)));
    }

    /** From a signed header to the end of the call: validate, then commit. */
    method ValidateAndCommit(b: Block, next: ChainState, fault: bool) returns (ok: bool, ghost last: M.Label)
      requires Valid()
      modifies this, store, guard
      ensures Valid() && signed == old(signed)
      ensures M.Next(p, old(At(M.Signed(b, next))), last) == Some(At(M.Idle))
      ensures last == M.LastStep(p, old(At(M.Signed(b, next))), fault) && (ok <==> last == M.Commit)
    {
      var err := guard.AssertValidSequence(lastState, b.header);
      if err.Some? {
        return false, M.Reject;
      }
      if fault {
        return false, M.Abort;
      }
      CommitBlock(b, next);
      return true, M.Commit;
    }

    /** Signs the header; the signature itself is not part of the model. */
    method SignHeader(b: Block, next: ChainState, fault: bool) returns (ok: bool)
      requires Valid()
      modifies `signed
      ensures ok ==> M.Next(p, old(At(M.Executed(b, next))), M.Sign) == Some(At(M.Signed(b, next)))
      ensures !ok ==> M.Next(p, old(At(M.Executed(b, next))), M.Abort) == Some(At(M.Idle))
      ensures ok == !fault
    {
      if fault {
        return false;
      }
      signed := signed + {b.header};
      return true;
    }

    /** From an executed block to the end of the call: sign, validate, commit. */
    method SignAndCommit(b: Block, next: ChainState, faults: M.Faults) returns (produced: bool, ghost path: seq<M.Label>)
      requires Valid()
      modifies this, store, guard
      ensures Valid() && M.Run(p, old(At(M.Executed(b, next))), path) == Some(At(M.Idle))
      ensures path == M.SignPath(p, old(At(M.Executed(b, next))), faults) && (produced <==> M.Commit in path)
    {
      ghost var n2 := At(M.Executed(b, next));
      var ok := SignHeader(b, next, faults.sign);
      if !ok {
        Extend(p, n2, [], n2, M.Abort);
        return false, [M.Abort];
      }
      Extend(p, n2, [], n2, M.Sign);
      ghost var n3 := At(M.Signed(b, next));
      ghost var last;
      produced, last := ValidateAndCommit(b, next, faults.commit);
      Extend(p, n2, [M.Sign], n3, last);
      path := [M.Sign] + [last];
    }

    /** From a saved block to the end of the call: execute, then sign and commit. */
    method FinishBlock(b: Block, daHeight: nat, faults: M.Faults) returns (produced: bool, ghost path: seq<M.Label>)
      requires Valid()
      modifies this, store, exec, guard
      ensures Valid() && M.Run(p, old(At(M.Saved(b))), path) == Some(At(M.Idle))
      ensures path == M.FinishPath(p, old(At(M.Saved(b))), daHeight, faults) && (produced <==> M.Commit in path)
    {
      ghost var n1 := At(M.Saved(b));
      var applied := ApplyBlock(b, daHeight, faults.execute);
      if applied.None? {
        Extend(p, n1, [], n1, M.Abort);
        return false, [M.Abort];
      }
      Extend(p, n1, [], n1, M.Execute(daHeight));
      ghost var rest;
      produced, rest := SignAndCommit(b, applied.value, faults);
      M.RunAppend(p, n1, [M.Execute(daHeight)], rest);
      path := [M.Execute(daHeight)] + rest;
    }

    /** ProduceBlock: obtain a block, execute it, sign its header, validate it and commit. */
    method ProduceBlock(batch: Option<M.Batch>, daHeight: nat, faults: M.Faults)
      returns (produced: bool, ghost path: seq<M.Label>)
      requires Valid()
      modifies this, store, exec, guard
      ensures Valid() && M.Run(p, old(At(M.Idle)), path) == Some(At(M.Idle))
      ensures path == M.CallPath(p, old(At(M.Idle)), batch, daHeight, faults) && (produced <==> M.Commit in path)
    {
      ghost var n0 := At(M.Idle);
      var obtained;
      obtained, path := ObtainBlock(batch, faults);
      if obtained.None? {
        return false, path;
      }
      ghost var rest;
      produced, rest := FinishBlock(obtained.value, daHeight, faults);
      M.RunAppend(p, n0, path, rest);
      path := path + rest;
    }

    /** Stop: a pending block is deleted unless the flag says one exists. */
    method Stop() returns (ghost path: seq<M.Label>)
      requires Valid()
      modifies store
      ensures path == [M.Stop] || path == [M.Stop, M.StopData]
      ensures M.Run(p, old(At(M.Idle)), path) == Some(NotRunning(M.Down))
    {
      ghost var n0 := At(M.Idle);
      path := [M.Stop];
      if hasPendingBlock {
        Extend(p, n0, [], n0, M.Stop);
        return;
      }
      store.pendingHeader := None;
      Extend(p, n0, [], n0, M.Stop);
      ghost var n1 := NotRunning(M.Stopping);
      store.pendingData := None;
      Extend(p, n0, path, n1, M.StopData);
      path := path + [M.StopData];
    }
  }
}

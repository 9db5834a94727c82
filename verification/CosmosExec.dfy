/** CosmosExecutor as the object it is: fields changed in place under its mutex, each operation
    proved to be the corresponding function of ExecutionLayer. `cancelled` is `ctx.Err() != nil`. */
module CosmosExec {
  import opened Basics
  import opened Chain
  import L = ExecutionLayer

  class CosmosExecutor {
    const app: L.App
    var initialized: bool
    var chainId: string
    var stateRoot: Root
    var lastHeight: nat
    var finalizedHeight: nat
    var mempool: seq<Tx>
    var blocks: map<nat, L.BlockInfo>
    var txResults: map<Hash, L.TxResult>
    var versions: map<nat, Root>  // the application's versioned commit store

    ghost function State(): L.Exec reads this {
      L.Exec(initialized, chainId, stateRoot, lastHeight, finalizedHeight, mempool, blocks, txResults, versions)
    }

    constructor (app: L.App)
      ensures this.app == app && State() == L.FreshExec
    {
      this.app := app;
      initialized, chainId, stateRoot, lastHeight, finalizedHeight := false, "", [], 0, 0;
      mempool, blocks, txResults, versions := [], map[], map[], map[];
    }

    method InitChain(cancelled: bool, initialHeight: nat, chainId: string) returns (r: Result<Root, L.ExecError>)
      modifies this
      ensures cancelled ==> r == Err(L.Cancelled) && State() == old(State())
      ensures !cancelled ==> L.Outcome(r, State()) == L.InitChain(app, old(State()), initialHeight, chainId)
    {
      if cancelled {
        return Err(L.Cancelled);
      }
      if initialHeight == 0 {
        return Err(L.BadInitialHeight);
      }
      if chainId == "" {
        return Err(L.MissingChainId);
      }
      if initialized {
        if this.chainId != chainId {
          return Err(L.OtherChain);
        }
        return Ok(stateRoot);
      }
      var root := app.initHash;
      if |root| == 0 {
        versions := versions[initialHeight - 1 := app.initCommit];
        root := app.initCommit;
      }
      initialized := true;
      this.chainId := chainId;
      stateRoot := root;
      lastHeight := initialHeight - 1;
      return Ok(stateRoot);
    }

    method GetTxs(cancelled: bool) returns (r: Result<seq<Tx>, L.ExecError>)
      modifies `mempool
      ensures cancelled ==> r == Err(L.Cancelled) && State() == old(State())
      ensures !cancelled ==> L.Outcome(r, State()) == L.GetTxs(old(State()))
    {
      if cancelled {
        return Err(L.Cancelled);
      }
      r := Ok(mempool);
      mempool := [];
    }

    method InjectTx(cancelled: bool, tx: Tx) returns (r: Result<Hash, L.ExecError>)
      modifies `mempool
      ensures cancelled ==> r == Err(L.Cancelled) && State() == old(State())
      ensures !cancelled ==> L.Outcome(r, State()) == L.InjectTx(app, old(State()), tx)
    {
      if cancelled {
        return Err(L.Cancelled);
      }
      if |tx| == 0 {
        return Err(L.EmptyTx);
      }
      mempool := mempool + [tx];
      return Ok(app.txHash(tx));
    }

    /** Drops the empty transactions before FinalizeBlock. */
    method ValidTxs(txs: seq<Tx>) returns (valid: seq<Tx>)
      ensures valid == L.NonEmpty(txs)
    {
      valid := [];
      for i := 0 to |txs|
        invariant valid == L.NonEmpty(txs[..i])
      {
        FilterAppend((tx: Tx) => tx != [], txs[..i], [txs[i]]);
        assert txs[..i + 1] == txs[..i] + [txs[i]];
        if |txs[i]| > 0 {
          valid := valid + [txs[i]];
        }
      }
      assert txs[..|txs|] == txs;
    }

    method ExecuteTxs(cancelled: bool, txs: seq<Tx>, blockHeight: nat, timestamp: int, prevStateRoot: Root)
      returns (r: Result<Root, L.ExecError>)
      modifies this
      ensures cancelled ==> r == Err(L.Cancelled) && State() == old(State())
      ensures !cancelled ==> L.Outcome(r, State()) == L.ExecuteTxs(app, old(State()), txs, blockHeight, timestamp, prevStateRoot)
    {
      if cancelled {
        return Err(L.Cancelled);
      }
      if blockHeight == 0 {
        return Err(L.BadBlockHeight);
      }
      if !initialized {
        return Err(L.NotInitialized);
      }
      if stateRoot != prevStateRoot {
        return Err(L.RootMismatch);
      }
      if blockHeight != lastHeight + 1 {
        return Err(L.UnexpectedHeight);
      }
      ExecuteBlock(txs, blockHeight, timestamp);
      return Ok(stateRoot);
    }

    method ExecuteBlock(txs: seq<Tx>, blockHeight: nat, timestamp: int)
      requires initialized && blockHeight == lastHeight + 1
      modifies this
      ensures L.Outcome(Ok(stateRoot), State())
              == L.ExecuteTxs(app, old(State()), txs, blockHeight, timestamp, old(stateRoot))
    {
      var validTxs := ValidTxs(txs);
      var responses := app.responses(stateRoot, validTxs, blockHeight, timestamp);
      var txHashes := RecordResults(validTxs, responses, blockHeight);
      var root := app.apply(stateRoot, validTxs, blockHeight, timestamp);
      Advance(root, L.BlockInfo(blockHeight, timestamp, root, |txs|, txHashes));
    }

    method Advance(root: Root, info: L.BlockInfo)
      modifies `stateRoot, `versions, `lastHeight, `blocks
      ensures
        var e := old(State());
        State() == e.(root := root, versions := e.versions[info.height := root], height := info.height,
                      blocks := e.blocks[info.height := info])
    {
      stateRoot := root;
      versions := versions[info.height := root];
      lastHeight := info.height;
      blocks := blocks[info.height := info];
    }

    /** Stores one result per reported transaction; a response longer than the input is cut off. */
    method RecordResults(validTxs: seq<Tx>, responses: seq<L.TxResponse>, blockHeight: nat) returns (txHashes: seq<Hash>)
      modifies `txResults
      ensures
        var n := Min(|validTxs|, |responses|);
        && txResults == L.Recorded(app, old(txResults), validTxs[..n], responses, blockHeight, n)
        && txHashes == Map(app.txHash, validTxs[..n])
    {
      txHashes := [];
      var i := 0;
      ghost var n := Min(|validTxs|, |responses|);
      while i < |responses|
        invariant 0 <= i <= n
        invariant txResults == L.Recorded(app, old(txResults), validTxs[..n], responses, blockHeight, i)
        invariant txHashes == Map(app.txHash, validTxs[..i])
      {
        if i >= |validTxs| {
          break;
        }
        assert validTxs[..n][i] == validTxs[i];
        MapSnoc(app.txHash, validTxs, i);
        var txHash := app.txHash(validTxs[i]);
        txHashes := txHashes + [txHash];
        txResults := txResults[txHash := L.TxResult(
          txHash, blockHeight, responses[i].code, responses[i].log, responses[i].events,
          L.SafeGas(responses[i].gasUsed), L.SafeGas(responses[i].gasWanted), |validTxs[i]|)];
        i := i + 1;
      }
    }

    method SetFinal(cancelled: bool, blockHeight: nat) returns (r: Result<(), L.ExecError>)
      modifies `finalizedHeight
      ensures cancelled ==> r == Err(L.Cancelled) && State() == old(State())
      ensures !cancelled ==> L.Outcome(r, State()) == L.SetFinal(old(State()), blockHeight)
    {
      if cancelled {
        return Err(L.Cancelled);
      }
      if blockHeight > lastHeight {
        return Err(L.FutureHeight);
      }
      if blockHeight > finalizedHeight {
        finalizedHeight := blockHeight;
      }
      return Ok(());
    }

    method GetLatestHeight() returns (h: nat)
      ensures h == State().height
    {
      return lastHeight;
    }

    method Rollback(cancelled: bool, targetHeight: nat) returns (r: Result<(), L.ExecError>)
      modifies this
      ensures cancelled ==> r == Err(L.Cancelled) && State() == old(State())
      ensures !cancelled ==> L.Outcome(r, State()) == L.Rollback(old(State()), targetHeight)
    {
      if cancelled {
        return Err(L.Cancelled);
      }
      if targetHeight > lastHeight {
        return Err(L.FutureHeight);
      }
      if targetHeight == lastHeight {
        return Ok(());
      }
      if targetHeight !in versions {
        return Err(L.NoSuchVersion);
      }
      stateRoot := versions[targetHeight];
      DeleteBlocks(targetHeight, true);
      DeleteResults(targetHeight, true);
      if finalizedHeight > targetHeight {
        finalizedHeight := targetHeight;
      }
      lastHeight := targetHeight;
      return Ok(());
    }

    method PruneExec(cancelled: bool, height: nat) returns (r: Result<(), L.ExecError>)
      modifies this
      ensures cancelled ==> r == Err(L.Cancelled) && State() == old(State())
      ensures !cancelled ==> r == Ok(()) && State() == L.PruneExec(old(State()), height)
    {
      if cancelled {
        return Err(L.Cancelled);
      }
      DeleteBlocks(height, false);
      DeleteResults(height, false);
      return Ok(());
    }

    /** Deletes the block entries on one side of `bound` while ranging over the map. */
    method DeleteBlocks(bound: nat, above: bool)
      modifies `blocks
      ensures blocks == map h | h in old(blocks) && (if above then h <= bound else h > bound) :: old(blocks)[h]
    {
      ghost var was := blocks;
      var todo := blocks.Keys;
      while todo != {}
        invariant todo <= was.Keys
        invariant forall h :: h in blocks ==> h in was && blocks[h] == was[h]
        invariant forall h :: h in was ==> (h in blocks <==> h in todo || (if above then h <= bound else h > bound))
        decreases |todo|
      {
        var h :| h in todo;
        todo := todo - {h};
        if (above && h > bound) || (!above && h <= bound) {
          blocks := blocks - {h};
        }
      }
    }

    method DeleteResults(bound: nat, above: bool)
      modifies `txResults
      ensures txResults == map k | k in old(txResults)
                && (if above then old(txResults)[k].height <= bound else old(txResults)[k].height > bound) :: old(txResults)[k]
    {
      ghost var was := txResults;
      var todo := txResults.Keys;
      while todo != {}
        invariant todo <= was.Keys
        invariant forall k :: k in txResults ==> k in was && txResults[k] == was[k]
        invariant forall k :: k in was ==>
                    (k in txResults <==> k in todo || (if above then was[k].height <= bound else was[k].height > bound))
        decreases |todo|
      {
        var k :| k in todo;
        todo := todo - {k};
        var height := txResults[k].height;
        if (above && height > bound) || (!above && height <= bound) {
          txResults := txResults - {k};
        }
      }
    }
  }
}

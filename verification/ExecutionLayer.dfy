/** The execution layer (apps/cosmos-exec/executor/executor.go). The Cosmos application is a
    deterministic function of the root it starts from. Its versioned store is the map `versions`; the
    application itself is not visible, and the model takes it that Commit records the version of the
    height it ends and that LoadVersion succeeds exactly for recorded versions. Persistence to disk is
    taken to succeed. */
module ExecutionLayer {
  import opened Basics
  import opened Chain

  datatype TxEvent = TxEvent(kind: string, attributes: seq<(string, string)>)

  /** What the application reports for one transaction; gas values are signed there. */
  datatype TxResponse = TxResponse(code: nat, log: string, events: seq<TxEvent>, gasUsed: int, gasWanted: int)

  /** FinalizeBlock + Commit as a function, the transaction responses it reports, the app hash that
      InitChain answers, the hash a commit right after it gives, and the digest naming a transaction. */
  datatype App = App(
    initHash: Root,
    initCommit: Root,
    apply: (Root, seq<Tx>, nat, int) -> Root,
    responses: (Root, seq<Tx>, nat, int) -> seq<TxResponse>,
    txHash: Tx -> Hash)
  {
    /** An empty app hash makes InitChain commit and take the hash of that version. */
    predicate CommitsGenesis() {
      initHash == []
    }

    function GenesisRoot(): Root {
      if CommitsGenesis() then initCommit else initHash
    }

    function GenesisVersions(initialHeight: nat): map<nat, Root>
      requires initialHeight > 0
    {
      if CommitsGenesis() then map[initialHeight - 1 := initCommit] else map[]
    }
  }

  datatype BlockInfo = BlockInfo(height: nat, time: int, appHash: Root, numTxs: nat, txHashes: seq<Hash>)

  datatype TxResult = TxResult(
    hash: Hash, height: nat, code: nat, log: string, events: seq<TxEvent>, gasUsed: nat, gasWanted: nat, size: nat)

  /** Negative gas is recorded as 0. */
  function SafeGas(gas: int): nat {
    if gas < 0 then 0 else gas
  }

  function ResultOf(app: App, tx: Tx, r: TxResponse, height: nat): TxResult {
    TxResult(app.txHash(tx), height, r.code, r.log, r.events, SafeGas(r.gasUsed), SafeGas(r.gasWanted), |tx|)
  }

  datatype Exec = Exec(
    initialized: bool, chainId: string, root: Root, height: nat, finalized: nat, mempool: seq<Tx>,
    blocks: map<nat, BlockInfo>, txResults: map<Hash, TxResult>, versions: map<nat, Root>)

  datatype ExecError =
    | Cancelled | BadInitialHeight | MissingChainId | OtherChain | BadBlockHeight | NotInitialized
    | RootMismatch | UnexpectedHeight | FutureHeight | NoSuchVersion | EmptyTx

  /** Outcome of an operation: its answer and the state it leaves behind. */
  datatype Outcome<+T> = Outcome(result: Result<T, ExecError>, state: Exec)

  const FreshExec: Exec := Exec(false, "", [], 0, 0, [], map[], map[], map[])

  function NonEmpty(txs: seq<Tx>): seq<Tx> {
    Filter(tx => tx != [], txs)
  }

  function InitChain(app: App, e: Exec, initialHeight: nat, chainId: string): Outcome<Root> {
    if initialHeight == 0 then Outcome(Err(BadInitialHeight), e)
    else if chainId == "" then Outcome(Err(MissingChainId), e)
    else if e.initialized && e.chainId != chainId then Outcome(Err(OtherChain), e)
    else if e.initialized then Outcome(Ok(e.root), e)
    else Outcome(Ok(app.GenesisRoot()),
                 e.(initialized := true, chainId := chainId, root := app.GenesisRoot(), height := initialHeight - 1,
                    versions := e.versions + app.GenesisVersions(initialHeight)))
  }

  /** Transactions that FinalizeBlock reported a result for. */
  function Reported(app: App, root: Root, txs: seq<Tx>, height: nat, time: int): seq<Tx> {
    var valid := NonEmpty(txs);
    valid[..Min(|valid|, |app.responses(root, valid, height, time)|)]
  }

  /** Result map after recording the first `n` reported transactions. */
  function Recorded(
      app: App, results: map<Hash, TxResult>, txs: seq<Tx>, rs: seq<TxResponse>, height: nat, n: nat): map<Hash, TxResult>
    requires n <= |txs| && n <= |rs|
  {
    if n == 0 then results
    else Recorded(app, results, txs, rs, height, n - 1)
           [app.txHash(txs[n - 1]) := ResultOf(app, txs[n - 1], rs[n - 1], height)]
  }

  function ExecuteTxs(app: App, e: Exec, txs: seq<Tx>, height: nat, time: int, prevRoot: Root): Outcome<Root> {
    if height == 0 then Outcome(Err(BadBlockHeight), e)
    else if !e.initialized then Outcome(Err(NotInitialized), e)
    else if e.root != prevRoot then Outcome(Err(RootMismatch), e)
    else if height != e.height + 1 then Outcome(Err(UnexpectedHeight), e)
    else
      var valid := NonEmpty(txs);
      var root := app.apply(e.root, valid, height, time);
      var reported := Reported(app, e.root, txs, height, time);
      var info := BlockInfo(height, time, root, |txs|, Map(app.txHash, reported));
      Outcome(Ok(root), e.(
        root := root, height := height,
        blocks := e.blocks[height := info],
        txResults := Recorded(app, e.txResults, reported, app.responses(e.root, valid, height, time), height, |reported|),
        versions := e.versions[height := root]))
  }

  function SetFinal(e: Exec, height: nat): Outcome<()> {
    if height > e.height then Outcome(Err(FutureHeight), e)
    else Outcome(Ok(()), e.(finalized := Max(e.finalized, height)))
  }

  function BlocksUpTo(m: map<nat, BlockInfo>, top: nat): map<nat, BlockInfo> {
    map h | h in m && h <= top :: m[h]
  }

  function ResultsUpTo(m: map<Hash, TxResult>, top: nat): map<Hash, TxResult> {
    map k | k in m && m[k].height <= top :: m[k]
  }

  function Rollback(e: Exec, target: nat): Outcome<()> {
    if target > e.height then Outcome(Err(FutureHeight), e)
    else if target == e.height then Outcome(Ok(()), e)
    else if target !in e.versions then Outcome(Err(NoSuchVersion), e)
    else Outcome(Ok(()), e.(
      root := e.versions[target], height := target, finalized := Min(e.finalized, target),
      blocks := BlocksUpTo(e.blocks, target), txResults := ResultsUpTo(e.txResults, target)))
  }

  function PruneExec(e: Exec, height: nat): Exec {
    e.(blocks := map h | h in e.blocks && h > height :: e.blocks[h],
       txResults := map k | k in e.txResults && e.txResults[k].height > height :: e.txResults[k])
  }

  /** The answer is the name under which the transaction's result will be found. */
  function InjectTx(app: App, e: Exec, tx: Tx): Outcome<Hash> {
    if tx == [] then Outcome(Err(EmptyTx), e) else Outcome(Ok(app.txHash(tx)), e.(mempool := e.mempool + [tx]))
  }

  function GetTxs(e: Exec): Outcome<seq<Tx>> {
    Outcome(Ok(e.mempool), e.(mempool := []))
  }

  // ---------------------------------------------------------------- runs

  datatype Op =
    | OpInit(initialHeight: nat, chainId: string)
    | OpExecute(txs: seq<Tx>, height: nat, time: int, prevRoot: Root)
    | OpFinal(height: nat)
    | OpInject(tx: Tx)
    | OpGetTxs
    | OpRollback(target: nat)
    | OpPrune(height: nat)

  function Do(app: App, e: Exec, op: Op): Exec {
    match op
    case OpInit(h, c) => InitChain(app, e, h, c).state
    case OpExecute(txs, h, t, r) => ExecuteTxs(app, e, txs, h, t, r).state
    case OpFinal(h) => SetFinal(e, h).state
    case OpInject(tx) => InjectTx(app, e, tx).state
    case OpGetTxs => GetTxs(e).state
    case OpRollback(t) => Rollback(e, t).state
    case OpPrune(h) => PruneExec(e, h)
  }

  function Run(app: App, e: Exec, ops: seq<Op>): Exec
    decreases ops
  {
    if ops == [] then e else Run(app, Do(app, e, ops[0]), ops[1..])
  }

  /** Nothing the executor remembers lies above the last executed height, and the root is the
      committed version of that height once a block has been executed. */
  ghost predicate Bounded(e: Exec) {
    && e.finalized <= e.height
    && (forall h :: h in e.blocks ==> h <= e.height)
    && (forall k :: k in e.txResults ==> e.txResults[k].height <= e.height)
    && (forall h :: h in e.blocks ==> h in e.versions && e.versions[h] == e.blocks[h].appHash)
    && (e.versions != map[] ==> e.height in e.versions && e.versions[e.height] == e.root)
    && (!e.initialized ==> e.versions == map[] && e.height == 0)
  }

  lemma {:induction false} RecordedHeights(
      app: App, results: map<Hash, TxResult>, txs: seq<Tx>, rs: seq<TxResponse>, height: nat, n: nat, k: Hash)
    requires n <= |txs| && n <= |rs| && k in Recorded(app, results, txs, rs, height, n)
    ensures Recorded(app, results, txs, rs, height, n)[k].height == height
            || (k in results && Recorded(app, results, txs, rs, height, n)[k] == results[k])
  {
    if n > 0 && k != app.txHash(txs[n - 1]) {
      RecordedHeights(app, results, txs, rs, height, n - 1, k);
    }
  }

  lemma StepKeepsBounded(app: App, e: Exec, op: Op)
    requires Bounded(e)
    ensures Bounded(Do(app, e, op))
  {
    if op.OpExecute? {
      var e' := Do(app, e, op);
      forall k | k in e'.txResults ensures e'.txResults[k].height <= e'.height {
        if e' != e {
          var valid := NonEmpty(op.txs);
          var reported := Reported(app, e.root, op.txs, op.height, op.time);
          RecordedHeights(app, e.txResults, reported, app.responses(e.root, valid, op.height, op.time), op.height, |reported|, k);
        }
      }
    }
  }

  /** Over every run from a new executor, finalized, block and result heights stay at or below
      the last executed height. */
  lemma {:induction false} RunsStayBounded(app: App, e: Exec, ops: seq<Op>)
    requires Bounded(e)
    ensures Bounded(Run(app, e, ops))
    decreases ops
  {
    if ops != [] {
      StepKeepsBounded(app, e, ops[0]);
      RunsStayBounded(app, Do(app, e, ops[0]), ops[1..]);
    }
  }

  lemma {:induction false} EveryRunIsBounded(app: App, ops: seq<Op>)
    ensures Bounded(Run(app, FreshExec, ops))
  {
    RunsStayBounded(app, FreshExec, ops);
  }

  // ---------------------------------------------------------------- what one block leaves behind

  /** `r` is the result of `tx` at `height` as the application answered it, negative gas as 0. */
  predicate Describes(r: TxResult, hash: Hash, height: nat, tx: Tx, answer: TxResponse) {
    && r.hash == hash && r.height == height && r.size == |tx|
    && r.code == answer.code && r.log == answer.log && r.events == answer.events
    && (if answer.gasUsed < 0 then r.gasUsed == 0 else r.gasUsed == answer.gasUsed)
    && (if answer.gasWanted < 0 then r.gasWanted == 0 else r.gasWanted == answer.gasWanted)
  }

  lemma {:induction false} RecordedAt(
      app: App, results: map<Hash, TxResult>, txs: seq<Tx>, rs: seq<TxResponse>, height: nat, n: nat, i: nat)
    requires i < n <= |txs| && n <= |rs|
    requires forall j :: i < j < n ==> app.txHash(txs[j]) != app.txHash(txs[i])
    ensures
      var k, r := app.txHash(txs[i]), Recorded(app, results, txs, rs, height, n);
      k in r && Describes(r[k], k, height, txs[i], rs[i])
  {
    if i < n - 1 {
      RecordedAt(app, results, txs, rs, height, n - 1, i);
    }
  }

  /** Each transaction of an executed block that the application answered has its own answer recorded,
      unless a later one of the block has the same hash. */
  lemma ExecutedResult(app: App, e: Exec, txs: seq<Tx>, height: nat, time: int, prevRoot: Root, i: nat)
    requires ExecuteTxs(app, e, txs, height, time, prevRoot).result.Ok?
    requires
      var valid := NonEmpty(txs);
      var rs := app.responses(e.root, valid, height, time);
      i < |valid| && i < |rs| && forall j :: i < j < |valid| && j < |rs| ==> app.txHash(valid[j]) != app.txHash(valid[i])
    ensures
      var valid := NonEmpty(txs);
      var rs := app.responses(e.root, valid, height, time);
      var k, after := app.txHash(valid[i]), ExecuteTxs(app, e, txs, height, time, prevRoot).state.txResults;
      k in after && Describes(after[k], k, height, valid[i], rs[i])
  {
    var reported := Reported(app, e.root, txs, height, time);
    RecordedAt(app, e.txResults, reported, app.responses(e.root, NonEmpty(txs), height, time), height, |reported|, i);
  }

  /** A block is executed if and only if it is the next one, on the current root of an initialized
      executor. Then root, height and committed version are the application's, the block entry names
      the call and the answered transactions in order, and nothing else but the results changes. */
  lemma ExecutedBlock(app: App, e: Exec, txs: seq<Tx>, height: nat, time: int, prevRoot: Root)
    ensures
      var r, valid := ExecuteTxs(app, e, txs, height, time, prevRoot), NonEmpty(txs);
      var root, rs := app.apply(e.root, valid, height, time), app.responses(e.root, valid, height, time);
      && (r.result.Ok? <==> e.initialized && prevRoot == e.root && height == e.height + 1)
      && (r.result.Err? ==> r.state == e)
      && (r.result.Ok? ==>
            && r.result.value == root && height in r.state.blocks
            && r.state == e.(root := root, height := height, versions := e.versions[height := root],
                             blocks := e.blocks[height := r.state.blocks[height]], txResults := r.state.txResults)
            && var info := r.state.blocks[height];
               && info.height == height && info.time == time && info.appHash == root && info.numTxs == |txs|
               && |info.txHashes| == Min(|valid|, |rs|)
               && forall i :: 0 <= i < |info.txHashes| ==> info.txHashes[i] == app.txHash(valid[i]))
  {
  }

  // ---------------------------------------------------------------- initialization, mempool, finality

  /** Once initialized, whatever happened since: a second InitChain for the same chain answers the
      current root and changes nothing, one for another chain is refused. */
  lemma {:induction false} InitializedOnce(app: App, e: Exec, ops: seq<Op>, initialHeight: nat, chainId: string)
    requires e.initialized && initialHeight > 0 && chainId != ""
    ensures
      var now := Run(app, e, ops);
      InitChain(app, now, initialHeight, chainId)
      == Outcome(if chainId == e.chainId then Ok(now.root) else Err(OtherChain), now)
    decreases ops
  {
    if ops != [] {
      InitializedOnce(app, Do(app, e, ops[0]), ops[1..], initialHeight, chainId);
    }
  }

  /** The non-empty transaction an operation injects, and those it hands out. */
  function InjectedBy(op: Op): seq<Tx> {
    if op.OpInject? && op.tx != [] then [op.tx] else []
  }

  function HandedOutBy(e: Exec, op: Op): seq<Tx> {
    if op.OpGetTxs? && GetTxs(e).result.Ok? then GetTxs(e).result.value else []
  }

  function Injected(ops: seq<Op>): seq<Tx> {
    if ops == [] then [] else InjectedBy(ops[0]) + Injected(ops[1..])
  }

  function HandedOut(app: App, e: Exec, ops: seq<Op>): seq<Tx>
    decreases ops
  {
    if ops == [] then [] else HandedOutBy(e, ops[0]) + HandedOut(app, Do(app, e, ops[0]), ops[1..])
  }

  lemma StepConserves(app: App, e: Exec, op: Op)
    ensures HandedOutBy(e, op) + Do(app, e, op).mempool == e.mempool + InjectedBy(op)
  {
  }

  lemma Chained(out: seq<Tx>, mid: seq<Tx>, start: seq<Tx>, one: seq<Tx>, rest: seq<Tx>, left: seq<Tx>, more: seq<Tx>)
    requires out + mid == start + one && rest + left == mid + more
    ensures out + rest + left == start + (one + more)
  {
    assert out + rest + left == out + (rest + left);
    assert out + (mid + more) == (out + mid) + more;
    assert start + (one + more) == (start + one) + more;
  }

  /** The mempool is a queue: over every run what is handed out, followed by what is left, is what was
      there, followed by what was injected. */
  lemma {:induction false} MempoolConserves(app: App, e: Exec, ops: seq<Op>)
    ensures HandedOut(app, e, ops) + Run(app, e, ops).mempool == e.mempool + Injected(ops)
    decreases ops
  {
    if ops != [] {
      var e' := Do(app, e, ops[0]);
      StepConserves(app, e, ops[0]);
      MempoolConserves(app, e', ops[1..]);
      Chained(HandedOutBy(e, ops[0]), e'.mempool, e.mempool, InjectedBy(ops[0]),
              HandedOut(app, e', ops[1..]), Run(app, e', ops[1..]).mempool, Injected(ops[1..]));
    }
  }

  /** The i-th operation finalizes a height that is not in the future then. */
  predicate Finalizes(app: App, e: Exec, ops: seq<Op>, i: nat)
    requires i < |ops|
  {
    ops[i].OpFinal? && ops[i].height <= Run(app, e, ops[..i]).height
  }

  lemma {:induction false} RunAppend(app: App, e: Exec, a: seq<Op>, b: seq<Op>)
    ensures Run(app, e, a + b) == Run(app, Run(app, e, a), b)
    decreases a
  {
    if a == [] {
      assert a + b == b;
    } else {
      assert (a + b)[0] == a[0] && (a + b)[1..] == a[1..] + b;
      RunAppend(app, Do(app, e, a[0]), a[1..], b);
    }
  }

  /** Without rollbacks the finalized height is the largest of the one before and those accepted. */
  lemma {:induction false} FinalizedIsLargest(app: App, e: Exec, ops: seq<Op>)
    requires forall i :: 0 <= i < |ops| ==> !ops[i].OpRollback?
    ensures
      var now := Run(app, e, ops).finalized;
      && e.finalized <= now && (forall i: nat :: i < |ops| && Finalizes(app, e, ops, i) ==> ops[i].height <= now)
      && (now == e.finalized || exists i: nat :: i < |ops| && Finalizes(app, e, ops, i) && ops[i].height == now)
    decreases |ops|
  {
    if ops != [] {
      var n := |ops| - 1;
      var before := ops[..n];
      FinalizedIsLargest(app, e, before);
      RunAppend(app, e, before, [ops[n]]);
      assert ops == before + [ops[n]];
      var was, now := Run(app, e, before), Run(app, e, ops);
      assert [ops[n]][1..] == [];
      assert now == Do(app, was, ops[n]);
      forall i: nat | i < n ensures Finalizes(app, e, ops, i) <==> Finalizes(app, e, before, i) {
        assert before[..i] == ops[..i];
      }
      if now.finalized != was.finalized {
        assert Finalizes(app, e, ops, n);
      } else if now.finalized != e.finalized {
        var i: nat :| i < n && Finalizes(app, e, before, i) && before[i].height == was.finalized;
        assert Finalizes(app, e, ops, i) && ops[i].height == now.finalized;
      }
    }
  }

  /** A rollback lowers the finalized height only as far as it has to. */
  lemma RollbackFinalized(e: Exec, target: nat)
    requires Rollback(e, target).result.Ok? && e.finalized <= e.height
    ensures Rollback(e, target).state.finalized == if e.finalized <= target then e.finalized else target
  {
  }

  /** Everything recorded about heights up to `t` is what `base` recorded. */
  ghost predicate AgreeUpTo(base: Exec, e: Exec, t: nat) {
    && e.initialized && e.chainId == base.chainId && t <= e.height
    && t in e.versions && e.versions[t] == base.root
    && BlocksUpTo(e.blocks, t) == base.blocks
    && (e.height == t ==> e.root == base.root)
  }

  /** The operations allowed between a checkpoint at `t` and the rollback to it. */
  ghost predicate AboveCheckpoint(op: Op, t: nat) {
    match op
    case OpPrune(_) => false
    case OpRollback(r) => r >= t
    case _ => true
  }

  lemma StepAgrees(app: App, base: Exec, e: Exec, t: nat, op: Op)
    requires AgreeUpTo(base, e, t) && AboveCheckpoint(op, t)
    ensures AgreeUpTo(base, Do(app, e, op), t)
  {
    var e' := Do(app, e, op);
    if op.OpExecute? || op.OpRollback? {
      assert BlocksUpTo(e'.blocks, t) == BlocksUpTo(e.blocks, t);
    }
  }

  lemma {:induction false} RunAgrees(app: App, base: Exec, e: Exec, t: nat, ops: seq<Op>)
    requires AgreeUpTo(base, e, t)
    requires forall i :: 0 <= i < |ops| ==> AboveCheckpoint(ops[i], t)
    ensures AgreeUpTo(base, Run(app, e, ops), t)
    decreases ops
  {
    if ops != [] {
      StepAgrees(app, base, e, t, ops[0]);
      RunAgrees(app, base, Do(app, e, ops[0]), t, ops[1..]);
    }
  }

  /** Rolling back to the height of an earlier checkpoint restores its root, height and block
      map, whatever was executed, finalized or rolled back above it in between. */
  lemma RollbackRestoresCheckpoint(app: App, e: Exec, ops: seq<Op>)
    requires Bounded(e) && e.initialized && e.versions != map[]
    requires forall i :: 0 <= i < |ops| ==> AboveCheckpoint(ops[i], e.height)
    ensures
      var back := Rollback(Run(app, e, ops), e.height);
      && back.result.Ok?
      && back.state.root == e.root && back.state.height == e.height && back.state.blocks == e.blocks
      && back.state.finalized <= e.height
  {
    assert BlocksUpTo(e.blocks, e.height) == e.blocks;
    RunAgrees(app, e, e, e.height, ops);
    RunsStayBounded(app, e, ops);
  }

  lemma RollbackToStart(app: App, e: Exec, ops: seq<Op>)
    requires Bounded(e) && e.initialized && forall i :: 0 <= i < |ops| ==> Forward(ops[i])
    requires Run(app, e, ops).height != e.height
    ensures
      var r := Rollback(Run(app, e, ops), e.height);
      if e.versions == map[] then r.result == Err(NoSuchVersion)
      else r.result.Ok? && r.state.root == e.root && r.state.height == e.height
  {
    if e.versions == map[] {
      VersionsOnlyAbove(app, e, e.height, ops);
    } else {
      RollbackRestoresCheckpoint(app, e, ops);
    }
  }

  /** Once a block has been executed, going back to the genesis height is refused if and only if
      InitChain did not commit; when it did, the genesis root is restored. */
  lemma RollbackToGenesisRefusedIff(app: App, initialHeight: nat, chainId: string, e: Exec, ops: seq<Op>)
    requires initialHeight > 0 && chainId != "" && InitChain(app, FreshExec, initialHeight, chainId).state == e
    requires forall i :: 0 <= i < |ops| ==> Forward(ops[i])
    requires Run(app, e, ops).height != e.height
    ensures
      var r := Rollback(Run(app, e, ops), initialHeight - 1);
      && (r.result == Err(NoSuchVersion) <==> !app.CommitsGenesis())
      && (app.CommitsGenesis() ==>
            r.result.Ok? && r.state.root == app.GenesisRoot() && r.state.height == initialHeight - 1)
  {
    StepKeepsBounded(app, FreshExec, OpInit(initialHeight, chainId));
    assert e.versions == map[] <==> !app.CommitsGenesis() by {
      assert app.CommitsGenesis() ==> initialHeight - 1 in e.versions;
    }
    RollbackToStart(app, e, ops);
  }

  lemma {:induction false} VersionsOnlyAbove(app: App, e: Exec, t: nat, ops: seq<Op>)
    requires e.initialized && t <= e.height && t !in e.versions
    requires forall i :: 0 <= i < |ops| ==> Forward(ops[i])
    ensures t <= Run(app, e, ops).height && t !in Run(app, e, ops).versions
    decreases ops
  {
    if ops != [] {
      var e' := Do(app, e, ops[0]);
      assert e'.versions == e.versions || e'.versions == e.versions[e.height + 1 := e'.root];
      VersionsOnlyAbove(app, e', t, ops[1..]);
    }
  }

  /** The part of the state that decides the outcome of every execution, and the blocks so far. */
  ghost predicate SameTip(a: Exec, b: Exec) {
    && a.initialized == b.initialized && a.chainId == b.chainId && a.root == b.root && a.height == b.height
    && a.blocks == b.blocks
  }

  ghost predicate Forward(op: Op) {
    !op.OpRollback? && !op.OpPrune?
  }

  lemma SameTipStep(app: App, a: Exec, b: Exec, op: Op)
    requires SameTip(a, b) && Forward(op)
    ensures SameTip(Do(app, a, op), Do(app, b, op))
  {
    match op
    case OpExecute(txs, h, t, r) =>
      assert ExecuteTxs(app, a, txs, h, t, r).result == ExecuteTxs(app, b, txs, h, t, r).result;
    case _ =>
  }

  lemma {:induction false} SameTipSameRoots(app: App, a: Exec, b: Exec, ops: seq<Op>)
    requires SameTip(a, b) && forall i :: 0 <= i < |ops| ==> Forward(ops[i])
    ensures SameTip(Run(app, a, ops), Run(app, b, ops))
    decreases ops
  {
    if ops != [] {
      SameTipStep(app, a, b, ops[0]);
      SameTipSameRoots(app, Do(app, a, ops[0]), Do(app, b, ops[0]), ops[1..]);
    }
  }

  /** Executing, rolling back and executing the same operations again: after each of them root, height
      and every recorded block are what they were the first time. */
  lemma ReexecutionReachesSameRoots(app: App, e: Exec, ops: seq<Op>, n: nat)
    requires Bounded(e) && e.initialized && e.versions != map[] && n <= |ops|
    requires forall i :: 0 <= i < |ops| ==> Forward(ops[i])
    ensures
      var back := Rollback(Run(app, e, ops), e.height).state;
      SameTip(Run(app, back, ops[..n]), Run(app, e, ops[..n]))
  {
    RollbackRestoresCheckpoint(app, e, ops);
    RunAgrees(app, e, e, e.height, ops) by {
      assert BlocksUpTo(e.blocks, e.height) == e.blocks;
    }
    SameTipSameRoots(app, Rollback(Run(app, e, ops), e.height).state, e, ops[..n]);
  }

  /** Hashes whose results a successful execution (re)writes. */
  function TouchedBy(app: App, e: Exec, op: Op): set<Hash> {
    if op.OpExecute? && ExecuteTxs(app, e, op.txs, op.height, op.time, op.prevRoot).result.Ok?
    then set tx | tx in Reported(app, e.root, op.txs, op.height, op.time) :: app.txHash(tx)
    else {}
  }

  function Touched(app: App, e: Exec, ops: seq<Op>): set<Hash>
    decreases ops
  {
    if ops == [] then {} else TouchedBy(app, e, ops[0]) + Touched(app, Do(app, e, ops[0]), ops[1..])
  }

  lemma {:induction false} RecordedKeys(
      app: App, results: map<Hash, TxResult>, txs: seq<Tx>, rs: seq<TxResponse>, height: nat, n: nat, k: Hash)
    requires n <= |txs| && n <= |rs|
    ensures
      var r := Recorded(app, results, txs, rs, height, n);
      var hit := exists i :: 0 <= i < n && app.txHash(txs[i]) == k;
      && (k in r <==> hit || k in results)
      && (hit ==> r[k].height == height)
      && (!hit && k in results ==> r[k] == results[k])
  {
    if n > 0 {
      RecordedKeys(app, results, txs, rs, height, n - 1, k);
    }
  }

  /** After a forward run, the result of `k` is one recorded at or below `t` exactly when it was
      one before the run and no execution of the run rewrote it. */
  lemma {:induction false} UntouchedSurvive(app: App, e: Exec, t: nat, ops: seq<Op>, k: Hash)
    requires Bounded(e) && e.initialized && t <= e.height && forall i :: 0 <= i < |ops| ==> Forward(ops[i])
    ensures
      var now := Run(app, e, ops).txResults;
      var kept := k in e.txResults && e.txResults[k].height <= t && k !in Touched(app, e, ops);
      && (k in now && now[k].height <= t <==> kept)
      && (kept ==> now[k] == e.txResults[k])
    decreases ops
  {
    if ops != [] {
      StepKeepsBounded(app, e, ops[0]);
      UntouchedByOne(app, e, t, ops[0], k);
      UntouchedSurvive(app, Do(app, e, ops[0]), t, ops[1..], k);
    }
  }

  lemma UntouchedByOne(app: App, e: Exec, t: nat, op: Op, k: Hash)
    requires e.initialized && t <= e.height && Forward(op)
    ensures Do(app, e, op).initialized && Do(app, e, op).height >= e.height
    ensures
      var now := Do(app, e, op).txResults;
      var kept := k in e.txResults && e.txResults[k].height <= t && k !in TouchedBy(app, e, op);
      && (k in now && now[k].height <= t <==> kept)
      && (kept ==> now[k] == e.txResults[k])
  {
    if op.OpExecute? && ExecuteTxs(app, e, op.txs, op.height, op.time, op.prevRoot).result.Ok? {
      var reported := Reported(app, e.root, op.txs, op.height, op.time);
      var rs := app.responses(e.root, NonEmpty(op.txs), op.height, op.time);
      RecordedKeys(app, e.txResults, reported, rs, op.height, |reported|, k);
      assert k in (set tx | tx in reported :: app.txHash(tx)) <==>
             exists i :: 0 <= i < |reported| && app.txHash(reported[i]) == k;
    }
  }

  /** Rollback does not always restore the transaction results: it does exactly when no execution
      since the checkpoint reported a transaction that already had a result. */
  lemma ResultsRestoredIffDisjoint(app: App, e: Exec, ops: seq<Op>)
    requires Bounded(e) && e.initialized && e.versions != map[]
    requires forall i :: 0 <= i < |ops| ==> Forward(ops[i])
    ensures Rollback(Run(app, e, ops), e.height).state.txResults == e.txResults
            <==> Touched(app, e, ops) !! e.txResults.Keys
  {
    var r := Run(app, e, ops);
    RollbackRestoresCheckpoint(app, e, ops);
    RunsStayBounded(app, e, ops);
    var back := Rollback(r, e.height).state.txResults;
    assert back == ResultsUpTo(r.txResults, e.height);
    forall k ensures k in back <==> k in e.txResults && k !in Touched(app, e, ops)
             ensures k in back ==> back[k] == e.txResults[k]
    {
      UntouchedSurvive(app, e, e.height, ops, k);
    }
    if back == e.txResults {
      forall k | k in Touched(app, e, ops) ensures k !in e.txResults.Keys {
        assert k !in back;
      }
    }
  }
}

/** What the blocks of a node hold, over every run, and what one ProduceBlock call without faults does
    with the batch it is given. */
module NodeBlocks {
  import opened Basics
  import opened Chain
  import opened NodeTypes
  import opened NodeMachine
  import opened NodeSafety
  import L = ExecutionLayer

  // ---------------------------------------------------------------- every stored block is well built

  /** `b` is a block of height `h` on top of `blocks`: its data is the data its header names, both carry
      the same chain, height and time, and both are linked to the block below. */
  ghost predicate WellBuilt(p: Params, blocks: map<nat, Block>, b: Block, h: nat) {
    var g, d := b.header, b.data;
    && g.height == d.height == h && g.chainId == d.chainId == p.chainId && g.time == d.time
    && g.version == Version(0, 0) && g.proposer == p.proposer && g.validatorHash == p.validatorHash
    && g.dataHash == (if d.txs == [] then p.emptyTxsHash else p.commitment(d.txs))
    && if h > p.initialHeight then
         h - 1 in blocks && g.lastHeaderHash == p.hash(blocks[h - 1].header)
         && d.lastDataHash == p.dataHash(blocks[h - 1].data)
       else g.lastHeaderHash == [] && d.lastDataHash == [] && g.time == ToUint64(p.startTime)
  }

  ghost predicate BuiltAt(p: Params, blocks: map<nat, Block>, h: nat) {
    h in blocks ==> WellBuilt(p, blocks, blocks[h], h)
  }

  ghost predicate DiskBuilt(p: Params, disk: Disk) {
    && (forall h: nat :: BuiltAt(p, disk.blocks, h))
    && (forall h :: h in disk.states ==> disk.states[h].version == Version(0, 0))
    && (disk.pendingHeader.Some? && disk.pendingData.Some? && disk.pendingHeader.value.height == disk.height + 1 ==>
          WellBuilt(p, disk.blocks, Block(disk.pendingHeader.value, disk.pendingData.value), disk.height + 1))
  }

  ghost predicate MemoryBuilt(p: Params, disk: Disk, m: Memory) {
    && m.lastState.version == Version(0, 0)
    && (m.lastBlock.Some? && disk.height in disk.blocks ==>
          var tip := disk.blocks[disk.height];
          m.lastBlock.value == LastBlock(p.hash(tip.header), p.dataHash(tip.data)))
    && (!m.pc.Idle? ==> WellBuilt(p, disk.blocks, m.pc.b, disk.height + 1))
    && (m.pc.Executed? || m.pc.Signed? ==> m.pc.next.version == Version(0, 0))
  }

  ghost predicate Built(p: Params, n: Node) {
    && DiskBuilt(p, n.disk)
    && match n.proc
       case Loaded(s) => s.version == Version(0, 0)
       case Persisted(s) => s.version == Version(0, 0)
       case Running(m) => MemoryBuilt(p, n.disk, m)
       case _ => true
  }

  lemma BootKeepsBuilt(p: Params, n: Node)
    requires ValidParams(p) && Inv(p, n) && Built(p, n)
    ensures NextBoot(p, n).Some? ==> Built(p, NextBoot(p, n).value)
  {
    if NextBoot(p, n).Some? {
      assert NextBoot(p, n).value.disk == n.disk;
    }
  }

  lemma BootPersistKeepsBuilt(p: Params, n: Node)
    requires ValidParams(p) && Inv(p, n) && Built(p, n)
    ensures NextBootPersist(n).Some? ==> Built(p, NextBootPersist(n).value)
  {
    if n.proc.Loaded? {
      var disk := NextBootPersist(n).value.disk;
      if Live(p, n) {
        TipFacts(p, n.disk);
        assert disk == n.disk;
      } else {
        assert disk.blocks == map[] && disk.pendingHeader.None?;
      }
    }
  }

  lemma BootSyncKeepsBuilt(p: Params, n: Node)
    requires ValidParams(p) && Inv(p, n) && Built(p, n)
    ensures NextBootSync(p, n).Some? ==> Built(p, NextBootSync(p, n).value)
  {
    if n.proc.Persisted? {
      TipFacts(p, n.disk);
      assert NextBootSync(p, n).value.disk == n.disk;
    }
  }

  /** A new block is well built, and holds the batch. */
  lemma CreateBlockExact(p: Params, n: Node, batch: Batch)
    requires ValidParams(p) && Live(p, n) && Built(p, n) && n.proc.Running?
    ensures
      var b, h := CreateBlock(p, n.disk, n.proc.mem, batch), n.disk.height + 1;
      && b.Some? && WellBuilt(p, n.disk.blocks, b.value, h) && b.value.data.txs == batch.txs
      && b.value.header.time == ToUint64(if h > p.initialHeight then batch.time else p.startTime)
      && b.value.header.appHash == n.disk.states[n.disk.height].appHash
  {
    TipFacts(p, n.disk);
  }

  lemma BeginKeepsBuilt(p: Params, n: Node, batch: Option<Batch>)
    requires ValidParams(p) && Inv(p, n) && Built(p, n)
    ensures NextBegin(p, n, batch).Some? ==> Built(p, NextBegin(p, n, batch).value)
  {
    if n.proc.Running? {
      TipFacts(p, n.disk);
      if batch.Some? {
        CreateBlockExact(p, n, batch.value);
      }
    }
  }

  lemma CommitKeepsBuilt(p: Params, n: Node)
    requires ValidParams(p) && Inv(p, n) && Built(p, n)
    ensures NextCommit(p, n).Some? ==> Built(p, NextCommit(p, n).value)
  {
    if NextCommit(p, n).Some? {
      var n' := NextCommit(p, n).value;
      CommitFacts(p, n, n');
      BlockAdded(p, n.disk.blocks, n.proc.mem.pc.b, n'.disk.height, n'.disk.blocks);
    }
  }

  lemma CommitFacts(p: Params, n: Node, n': Node)
    requires ValidParams(p) && Inv(p, n) && Built(p, n) && NextCommit(p, n) == Some(n')
    ensures
      var b, s, h := n.proc.mem.pc.b, n.proc.mem.pc.next, n.disk.height + 1;
      && b.header.height == h && (forall g :: g in n.disk.blocks ==> g < h)
      && WellBuilt(p, n.disk.blocks, b, h) && s.version == Version(0, 0)
      && n'.disk == n.disk.(height := h, blocks := n.disk.blocks[h := b], states := n.disk.states[h := s])
      && n.disk.pendingHeader == Some(b.header)
      && n'.proc.Running? && n'.proc.mem.lastState == s && n'.proc.mem.pc.Idle?
      && n'.proc.mem.lastBlock == Some(LastBlock(p.hash(b.header), p.dataHash(b.data)))
  {
    TipFacts(p, n.disk);
  }

  lemma BlockAdded(p: Params, blocks: map<nat, Block>, b: Block, h: nat, after: map<nat, Block>)
    requires forall g: nat :: BuiltAt(p, blocks, g)
    requires forall g :: g in blocks ==> g < h
    requires WellBuilt(p, blocks, b, h) && after == blocks[h := b]
    ensures forall g: nat :: BuiltAt(p, after, g)
  {
    forall g: nat ensures BuiltAt(p, after, g) {
      assert BuiltAt(p, blocks, g);
    }
  }

  lemma OtherStepsKeepBuilt(p: Params, n: Node, l: Label)
    requires ValidParams(p) && Inv(p, n) && Built(p, n)
    requires l.SavePending? || l.Execute? || l.Sign? || l.Abort? || l.Reject? || l.Stop? || l.StopData? || l.Crash?
    ensures Next(p, n, l).Some? ==> Built(p, Next(p, n, l).value)
  {
  }

  lemma StepKeepsBuilt(p: Params, n: Node, l: Label)
    requires ValidParams(p) && Inv(p, n) && Built(p, n)
    ensures Next(p, n, l).Some? ==> Built(p, Next(p, n, l).value)
  {
    match l
    case Boot => BootKeepsBuilt(p, n);
    case BootPersist => BootPersistKeepsBuilt(p, n);
    case BootSync => BootSyncKeepsBuilt(p, n);
    case Begin(batch) => BeginKeepsBuilt(p, n, batch);
    case Commit => CommitKeepsBuilt(p, n);
    case _ => OtherStepsKeepBuilt(p, n, l);
  }

  lemma {:induction false} RunKeepsBuilt(p: Params, n: Node, ls: seq<Label>)
    requires ValidParams(p) && Inv(p, n) && Built(p, n)
    ensures Run(p, n, ls).Some? ==> Built(p, Run(p, n, ls).value)
    decreases ls
  {
    if ls != [] && Next(p, n, ls[0]).Some? {
      StepKeepsInv(p, n, ls[0]);
      StepKeepsBuilt(p, n, ls[0]);
      RunKeepsBuilt(p, Next(p, n, ls[0]).value, ls[1..]);
    }
  }

  lemma ReachableBuilt(p: Params, n: Node)
    requires ValidParams(p) && Reachable(p, n)
    ensures Inv(p, n) && Built(p, n)
  {
    ReachableInv(p, n);
    var ls :| Run(p, NewNode, ls) == Some(n);
    RunKeepsBuilt(p, NewNode, ls);
  }

  /** In every reachable state each stored block is well built on the one below it, and so is a pending
      block for the next height. */
  lemma StoredBlocksAreWellBuilt(p: Params, n: Node, h: nat)
    requires ValidParams(p) && Reachable(p, n)
    ensures h in n.disk.blocks ==> WellBuilt(p, n.disk.blocks, n.disk.blocks[h], h)
    ensures n.disk.pendingHeader.Some? && n.disk.pendingData.Some? && n.disk.pendingHeader.value.height == n.disk.height + 1 ==>
              WellBuilt(p, n.disk.blocks, Block(n.disk.pendingHeader.value, n.disk.pendingData.value), n.disk.height + 1)
  {
    ReachableBuilt(p, n);
    assert BuiltAt(p, n.disk.blocks, h);
  }

  // ---------------------------------------------------------------- one call with a batch

  const NO_FAULTS := Faults(false, false, false, false)

  function FreshCall(batch: Batch, daHeight: nat): seq<Label> {
    [Begin(Some(batch)), SavePending, Execute(daHeight), Sign, Commit]
  }

  /** `after` is `n` with the batch committed as the next block. */
  ghost predicate BatchCommitted(p: Params, n: Node, batch: Batch, daHeight: nat, after: Node)
    requires n.disk.height in n.disk.states
  {
    var h, tip := n.disk.height + 1, n.disk.states[n.disk.height];
    && after.disk.height == h && h in after.disk.blocks && h in after.disk.states
    && var b, s := after.disk.blocks[h], after.disk.states[h];
       && after.disk.blocks == n.disk.blocks[h := b] && after.disk.states == n.disk.states[h := s]
       && WellBuilt(p, n.disk.blocks, b, h) && b.data.txs == batch.txs
       && b.header.time == ToUint64(if h > p.initialHeight then batch.time else p.startTime)
       && b.header.appHash == tip.appHash
       && s.chainId == p.chainId && s.initialHeight == tip.initialHeight && s.version == tip.version
       && s.lastBlockHeight == h && s.lastBlockTime == HeaderTime(b.header) && s.lastHeaderHash == p.hash(b.header)
       && s.appHash == p.app.apply(tip.appHash, L.NonEmpty(batch.txs), h, HeaderTime(b.header)) && s.daHeight == daHeight
       && after.signed == n.signed + {b.header} && Aligned(after)
       && after.proc.Running? && after.proc.mem.pc.Idle? && !after.proc.mem.hasPending && after.proc.mem.lastState == s
  }

  ghost predicate ReadyForBatch(p: Params, n: Node) {
    && Reachable(p, n) && n.disk != EmptyDisk && Aligned(n)
    && n.proc.Running? && n.proc.mem.pc.Idle? && !n.proc.mem.hasPending
  }

  /** Created, saved and executed: the block in hand holds the batch. */
  lemma BatchExecuted(p: Params, n: Node, batch: Batch, daHeight: nat) returns (b: Block, n': Node)
    requires ValidParams(p) && ReadyForBatch(p, n)
    ensures CreateBlock(p, n.disk, n.proc.mem, batch) == Some(b) && Live(p, n) && Built(p, n)
    ensures Run(p, n, [Begin(Some(batch)), SavePending, Execute(daHeight)]) == Some(n') && Reachable(p, n')
    ensures n'.disk == n.disk.(pendingHeader := Some(b.header), pendingData := Some(b.data)) && n'.signed == n.signed
    ensures n'.proc.Running? && n'.proc.mem.pc.Executed? && n'.proc.mem.pc.b == b && !n'.proc.mem.hasPending
    ensures n'.proc.mem.pc.next.daHeight == daHeight
  {
    ReachableLive(p, n);
    CreateBlockExact(p, n, batch);
    b := CreateBlock(p, n.disk, n.proc.mem, batch).value;
    var n1 := NextBegin(p, n, Some(batch)).value;
    var n2 := NextSavePending(n1).value;
    ExecuteAligned(p, n, n2, b, daHeight);
    n' := NextExecute(p, n2, daHeight).value;
    RunThree(p, n, Begin(Some(batch)), SavePending, Execute(daHeight));
    ReachableRun(p, n, [Begin(Some(batch)), SavePending, Execute(daHeight)], n');
  }

  lemma ReachableLive(p: Params, n: Node)
    requires ValidParams(p) && Reachable(p, n) && n.disk != EmptyDisk
    ensures Live(p, n) && Built(p, n)
  {
    ReachableBuilt(p, n);
  }

  /** An aligned executor accepts a block built on the tip. */
  lemma ExecuteAligned(p: Params, n: Node, n': Node, b: Block, daHeight: nat)
    requires ValidParams(p) && Live(p, n) && Aligned(n) && n.proc.Running? && b.header.height == n.disk.height + 1
    requires n'.exec == n.exec && n'.proc == Running(n.proc.mem.(pc := Saved(b)))
    ensures
      var r := NextExecute(p, n', daHeight);
      && r.Some? && r.value.disk == n'.disk && r.value.signed == n'.signed && r.value.proc.Running?
      && r.value.proc.mem == n.proc.mem.(pc := r.value.proc.mem.pc)
      && r.value.proc.mem.pc.Executed? && r.value.proc.mem.pc.b == b && r.value.proc.mem.pc.next.daHeight == daHeight
  {
    TipFacts(p, n.disk);
  }

  /** From an executed block: sign and commit. */
  lemma ExecutedCommits(p: Params, n: Node)
    requires ValidParams(p) && Reachable(p, n) && n.proc.Running? && n.proc.mem.pc.Executed?
    ensures n.disk.height in n.disk.states && Live(p, n) && n.proc.mem.lastState == n.disk.states[n.disk.height]
    ensures
      var r, m := Run(p, n, [Sign, Commit]), n.proc.mem;
      && (r.Some? <==> m.lastState.lastHeaderHash == [] || m.lastState.lastBlockTime <= HeaderTime(m.pc.b.header))
      && (r.Some? ==>
            && r.value.disk.height == n.disk.height + 1 && Aligned(r.value)
            && r.value.disk.blocks == n.disk.blocks[n.disk.height + 1 := m.pc.b]
            && r.value.disk.states == n.disk.states[n.disk.height + 1 := m.pc.next]
            && r.value.signed == n.signed + {m.pc.b.header}
            && r.value.proc.Running? && r.value.proc.mem.pc.Idle? && !r.value.proc.mem.hasPending
            && r.value.proc.mem.lastState == m.pc.next)
  {
    ReachableInv(p, n);
    TipFacts(p, n.disk);
    var n1 := NextSign(n).value;
    ReachableStep(p, n, Sign);
    CommitSigned(p, n1);
    assert [Sign, Commit][1..] == [Commit] && [Commit][1..] == [];
    assert Run(p, n1, [Commit]) == Next(p, n1, Commit);
  }

  /** What the sequencer hands out is what ends up on the chain: a call on an aligned idle node without
      a pending flag commits a block with exactly the batch's transactions, in one well-built block on
      the tip, unless the batch's time precedes that of a hashed tip. */
  lemma BatchIsCommitted(p: Params, n: Node, batch: Batch, daHeight: nat)
    requires ValidParams(p) && ReadyForBatch(p, n)
    ensures n.disk.height in n.disk.states
    ensures
      var tip, r := n.disk.states[n.disk.height], Run(p, n, FreshCall(batch, daHeight));
      && (r.Some? <==> tip.lastHeaderHash == [] || tip.lastBlockTime <= ToInt64(ToUint64(batch.time)))
      && (r.Some? ==> BatchCommitted(p, n, batch, daHeight, r.value))
  {
    var b, n1 := BatchExecuted(p, n, batch, daHeight);
    CreateBlockExact(p, n, batch);
    ExecutedCommits(p, n1);
    ExecutedNext(p, n1);
    var first := [Begin(Some(batch)), SavePending, Execute(daHeight)];
    RunAppend(p, n, first, [Sign, Commit]);
    assert FreshCall(batch, daHeight) == first + [Sign, Commit];
    GenesisHasNoHash(p, n.disk);
  }

  lemma ExecutedNext(p: Params, n: Node)
    requires ValidParams(p) && Live(p, n) && n.proc.Running? && n.proc.mem.pc.Executed?
    ensures
      var m, b := n.proc.mem, n.proc.mem.pc.b;
      var s := m.pc.next;
      && s.chainId == p.chainId && s.initialHeight == m.lastState.initialHeight && s.version == m.lastState.version
      && s.lastBlockHeight == n.disk.height + 1 && s.lastBlockTime == HeaderTime(b.header)
      && s.lastHeaderHash == p.hash(b.header)
      && s.appHash == p.app.apply(n.disk.states[n.disk.height].appHash, L.NonEmpty(b.data.txs), n.disk.height + 1,
                                  HeaderTime(b.header))
  {
    TipFacts(p, n.disk);
  }

  lemma GenesisHasNoHash(p: Params, disk: Disk)
    requires ValidParams(p) && ChainOk(p, disk)
    ensures disk.height in disk.states
    ensures disk.height < p.initialHeight ==> disk.states[disk.height].lastHeaderHash == []
  {
  }

  /** That run is the path a call without faults takes; when the time is refused the call ends by
      rejecting the signed header. */
  lemma FreshCallIsThePath(p: Params, n: Node, batch: Batch, daHeight: nat)
    requires ValidParams(p) && ReadyForBatch(p, n)
    ensures CallPath(p, n, Some(batch), daHeight, NO_FAULTS)
            == if Run(p, n, FreshCall(batch, daHeight)).Some? then FreshCall(batch, daHeight)
               else [Begin(Some(batch)), SavePending, Execute(daHeight), Sign, Reject]
  {
    var n2 := ObtainsFresh(p, n, batch);
    var _, n3 := BatchExecuted(p, n, batch, daHeight);
    var begin := Begin(Some(batch));
    RunAppend(p, n, [begin, SavePending], [Execute(daHeight)]);
    assert [begin, SavePending] + [Execute(daHeight)] == [begin, SavePending, Execute(daHeight)];
    FinishesFresh(p, n2, n3, daHeight);
    RunAppend(p, n, [begin, SavePending, Execute(daHeight)], [Sign, Commit]);
    assert FreshCall(batch, daHeight) == [begin, SavePending, Execute(daHeight)] + [Sign, Commit];
  }

  lemma ObtainsFresh(p: Params, n: Node, batch: Batch) returns (n': Node)
    requires ValidParams(p) && ReadyForBatch(p, n)
    ensures ObtainPath(p, n, Some(batch), false) == [Begin(Some(batch)), SavePending]
    ensures Run(p, n, [Begin(Some(batch)), SavePending]) == Some(n') && HasSaved(Some(n'))
  {
    ReachableLive(p, n);
    CreateBlockExact(p, n, batch);
    var n1 := NextBegin(p, n, Some(batch)).value;
    n' := NextSavePending(n1).value;
    TwoSteps(p, n, Begin(Some(batch)), SavePending);
  }

  lemma FinishesFresh(p: Params, n: Node, n': Node, daHeight: nat)
    requires Run(p, n, [Execute(daHeight)]) == Some(n') && n'.proc.Running? && n'.proc.mem.pc.Executed?
    ensures FinishPath(p, n, daHeight, NO_FAULTS)
            == [Execute(daHeight), Sign, if Run(p, n', [Sign, Commit]).Some? then Commit else Reject]
  {
    assert [Execute(daHeight)][1..] == [];
    assert Next(p, n, Execute(daHeight)) == Some(n');
    TwoSteps(p, n', Sign, Commit);
  }

  lemma TwoSteps(p: Params, n: Node, a: Label, b: Label)
    ensures Run(p, n, [a, b]) == if Next(p, n, a).None? then None else Next(p, Next(p, n, a).value, b)
  {
    assert [a, b][1..] == [b] && [b][1..] == [];
    if Next(p, n, a).Some? {
      var n1 := Next(p, n, a).value;
      assert Run(p, n1, [b]) == Next(p, n1, b);
    }
  }

  // ---------------------------------------------------------------- stopping

  /** Stopping keeps a pending block if and only if the flag says there is one; blocks and states stay,
      and the next start finds what was kept. */
  lemma StopThenStart(p: Params, n: Node)
    requires ValidParams(p) && Reachable(p, n) && n.disk != EmptyDisk
    requires n.proc.Running? && n.proc.mem.pc.Idle?
    ensures
      var stop := if n.proc.mem.hasPending then [Stop] else [Stop, StopData];
      var r := Run(p, n, stop + Restart);
      && r.Some? && r.value.proc.Running? && r.value.signed == n.signed
      && r.value.disk == (if n.proc.mem.hasPending then n.disk else n.disk.(pendingHeader := None, pendingData := None))
      && (r.value.proc.mem.hasPending <==> n.proc.mem.hasPending && n.disk.pendingHeader.Some?)
  {
    var stop := if n.proc.mem.hasPending then [Stop] else [Stop, StopData];
    ReachableLive(p, n);
    TwoSteps(p, n, Stop, StopData);
    assert [Stop][1..] == [];
    var down := Run(p, n, stop).value;
    ReachableRun(p, n, stop, down);
    assert down.disk.states == n.disk.states && n.disk.height in n.disk.states;
    ReachableLive(p, down);
    RestartState(p, down);
    RunAppend(p, n, stop, Restart);
  }
}

/** What every run of the node keeps: the execution layer never drifts from the store, a restart
    realigns them, and no two different headers are signed for one height. */
module NodeSafety {
  import opened Basics
  import opened Chain
  import opened NodeTypes
  import opened NodeMachine
  import R = Replay
  import L = ExecutionLayer

  lemma StepKeepsInv(p: Params, n: Node, l: Label)
    requires ValidParams(p) && Inv(p, n)
    ensures Next(p, n, l).Some? ==> Inv(p, Next(p, n, l).value)
  {
    match l
    case Boot => BootKeepsInv(p, n);
    case BootPersist => BootPersistKeepsInv(p, n);
    case BootSync => BootSyncKeepsInv(p, n);
    case Begin(batch) => BeginKeepsInv(p, n, batch);
    case SavePending => SavePendingKeepsInv(p, n);
    case Execute(d) => ExecuteKeepsInv(p, n, d);
    case Sign => SignKeepsInv(p, n);
    case Commit => CommitKeepsInv(p, n);
    case Reject => RejectKeepsInv(p, n);
    case Abort => AbortKeepsInv(p, n);
    case _ =>
  }

  lemma AbortKeepsInv(p: Params, n: Node)
    requires ValidParams(p) && Inv(p, n)
    ensures NextAbort(n).Some? ==> Inv(p, NextAbort(n).value)
  {
  }

  lemma RejectKeepsInv(p: Params, n: Node)
    requires ValidParams(p) && Inv(p, n)
    ensures NextReject(n).Some? ==> Inv(p, NextReject(n).value)
  {
  }

  lemma {:induction false} RunKeepsInv(p: Params, n: Node, ls: seq<Label>)
    requires ValidParams(p) && Inv(p, n)
    ensures Run(p, n, ls).Some? ==> Inv(p, Run(p, n, ls).value)
    decreases ls
  {
    if ls != [] {
      StepKeepsInv(p, n, ls[0]);
      if Next(p, n, ls[0]).Some? {
        RunKeepsInv(p, Next(p, n, ls[0]).value, ls[1..]);
      }
    }
  }

  ghost predicate Reachable(p: Params, n: Node) {
    exists ls :: Run(p, NewNode, ls) == Some(n)
  }

  lemma ReachableInv(p: Params, n: Node)
    requires ValidParams(p) && Reachable(p, n)
    ensures Inv(p, n)
  {
    var ls :| Run(p, NewNode, ls) == Some(n);
    RunKeepsInv(p, NewNode, ls);
  }

  lemma ReachableRun(p: Params, n: Node, ls: seq<Label>, n': Node)
    requires Reachable(p, n) && Run(p, n, ls) == Some(n')
    ensures Reachable(p, n')
  {
    var before :| Run(p, NewNode, before) == Some(n);
    RunAppend(p, NewNode, before, ls);
    assert Run(p, NewNode, before + ls) == Some(n');
  }

  lemma ReachableStep(p: Params, n: Node, l: Label)
    requires Reachable(p, n) && Next(p, n, l).Some?
    ensures Reachable(p, Next(p, n, l).value)
  {
    assert [l][1..] == [];
    ReachableRun(p, n, [l], Next(p, n, l).value);
  }

  /** Root of the chain after height `h`: the fold of the application over the stored blocks. */
  function ChainRoot(p: Params, blocks: map<nat, Block>, h: nat): Root {
    if h < p.initialHeight || h !in blocks || h == 0 then p.app.GenesisRoot()
    else p.app.apply(ChainRoot(p, blocks, h - 1), L.NonEmpty(blocks[h].data.txs), h, HeaderTime(blocks[h].header))
  }

  lemma {:induction false} StoredHashesAreTheFold(p: Params, disk: Disk, h: nat)
    requires ValidParams(p) && ChainOk(p, disk) && p.initialHeight - 1 <= h <= disk.height
    ensures disk.states[h].appHash == ChainRoot(p, disk.blocks, h)
  {
    if h >= p.initialHeight {
      assert Linked(p, disk.blocks, disk.states, h);
      StoredHashesAreTheFold(p, disk, h - 1);
    }
  }

  /** In every reachable state the execution layer is level with the store or exactly one block
      ahead, every stored app hash is the fold of the stored blocks, every block carries the hash
      of its predecessor, and a pending header never lacks its data. */
  lemma ExecutionNeverDrifts(p: Params, n: Node)
    requires ValidParams(p) && Reachable(p, n)
    ensures n.disk.pendingHeader.Some? ==> n.disk.pendingData.Some?
    ensures n.disk != EmptyDisk ==>
      && n.disk.height <= n.exec.height <= n.disk.height + 1
      && (n.exec.height == n.disk.height ==> n.exec.root == ChainRoot(p, n.disk.blocks, n.disk.height))
      && (forall h :: h in n.disk.states ==> n.disk.states[h].appHash == ChainRoot(p, n.disk.blocks, h))
      && (forall h :: h in n.disk.blocks && h > p.initialHeight ==>
            h - 1 in n.disk.blocks && n.disk.blocks[h].header.lastHeaderHash == p.hash(n.disk.blocks[h - 1].header))
  {
    ReachableInv(p, n);
    if n.disk != EmptyDisk {
      forall h | h in n.disk.states ensures n.disk.states[h].appHash == ChainRoot(p, n.disk.blocks, h) {
        StoredHashesAreTheFold(p, n.disk, h);
      }
      forall h | h in n.disk.blocks && h > p.initialHeight
        ensures h - 1 in n.disk.blocks && n.disk.blocks[h].header.lastHeaderHash == p.hash(n.disk.blocks[h - 1].header)
      {
        assert Linked(p, n.disk.blocks, n.disk.states, h);
        assert Linked(p, n.disk.blocks, n.disk.states, h - 1);
      }
    }
  }

  // ---------------------------------------------------------------- restart

  const Restart: seq<Label> := [Boot, BootPersist, BootSync]

  lemma RunThree(p: Params, n: Node, a: Label, b: Label, c: Label)
    requires Next(p, n, a).Some? && Next(p, Next(p, n, a).value, b).Some?
    ensures Run(p, n, [a, b, c]) == Next(p, Next(p, Next(p, n, a).value, b).value, c)
  {
    var n1 := Next(p, n, a).value;
    var n2 := Next(p, n1, b).value;
    assert [a, b, c][1..] == [b, c] && [b, c][1..] == [c] && [c][1..] == [];
    assert Run(p, n2, [c]) == Next(p, n2, c);
    assert Run(p, n1, [b, c]) == Run(p, n2, [c]);
  }

  ghost predicate Aligned(n: Node) {
    n.exec.height == n.disk.height && n.disk.height in n.disk.states
    && n.exec.root == n.disk.states[n.disk.height].appHash
  }

  /** The memory a restart comes up with. */
  function BootMemory(p: Params, disk: Disk): Memory
    requires disk.height in disk.states
  {
    var s := disk.states[disk.height];
    Memory(s, disk.pendingHeader.Some?, Warm(p, disk, s), 0, Idle)
  }

  lemma RestartState(p: Params, n: Node)
    requires ValidParams(p) && Live(p, n) && n.proc.Down?
    ensures n.disk.height in n.disk.states
    ensures
      var r := Run(p, n, Restart);
      && r.Some? && r.value.disk == n.disk && r.value.signed == n.signed
      && r.value.proc == Running(BootMemory(p, n.disk))
      && r.value.exec == if n.disk.height >= p.initialHeight then L.Rollback(n.exec, n.disk.height).state else n.exec
  {
    TipFacts(p, n.disk);
    var n1 := NextBoot(p, n).value;
    var n2 := NextBootPersist(n1).value;
    assert n2.disk == n.disk;
    RunThree(p, n, Boot, BootPersist, BootSync);
  }

  /** Crash at any step, then restart: the node comes back up with the store untouched, and the
      execution layer is realigned exactly when a block of the chain has been stored or the crash
      left it level. The one way out is a crash between executing and committing the first block:
      SyncToHeight skips heights below the initial one, and the layer stays a block ahead. */
  lemma RestartRealigns(p: Params, n: Node)
    requires ValidParams(p) && Reachable(p, n) && n.disk != EmptyDisk
    ensures
      var r := Run(p, n, [Crash] + Restart);
      && r.Some? && r.value.disk == n.disk && r.value.proc.Running?
      && (Aligned(r.value) <==> n.disk.height >= p.initialHeight || n.exec.height == n.disk.height)
  {
    ReachableInv(p, n);
    var down := n.(proc := Down);
    assert ([Crash] + Restart)[1..] == Restart;
    RestartState(p, down);
    if n.disk.height >= p.initialHeight {
      assert n.disk.height in n.exec.versions;
    }
  }

  /** Without raft, start-up never replays: the execution layer is never behind the store. */
  lemma RestartNeverReplays(p: Params, n: Node)
    requires ValidParams(p) && Reachable(p, n) && n.proc.Persisted?
    ensures n.exec.height >= n.proc.state.lastBlockHeight
  {
    ReachableInv(p, n);
    TipFacts(p, n.disk);
  }

  lemma {:induction false} DirectRootsAreStored(p: Params, disk: Disk, e: L.Exec, h: nat)
    requires ValidParams(p) && ChainOk(p, disk) && e.initialized && p.initialHeight - 1 <= e.height <= h <= disk.height
    requires e.root == disk.states[e.height].appHash
    ensures R.DirectExec(p, disk.blocks, e, h).root == disk.states[h].appHash
  {
    if h > e.height {
      DirectRootsAreStored(p, disk, e, h - 1);
      R.DirectHeight(p, disk.blocks, e, h - 1);
      assert Linked(p, disk.blocks, disk.states, h);
    }
  }

  /** On the disk of any live node, an execution layer that has fallen back to any earlier height is
      brought up to the stored tip by replay, with the stored root, and no app hash changes. */
  lemma LostTailIsReplayed(p: Params, n: Node, e: L.Exec)
    requires ValidParams(p) && Reachable(p, n) && p.initialHeight <= n.disk.height
    requires e.initialized && p.initialHeight - 1 <= e.height < n.disk.height
    requires e.height in n.disk.states && e.root == n.disk.states[e.height].appHash
    ensures n.disk.height in n.disk.states
    ensures
      var r := R.SyncToHeight(p, n.disk, e, n.disk.height);
      && r.error.None? && r.exec.height == n.disk.height && r.exec.root == n.disk.states[n.disk.height].appHash
      && forall h :: h in n.disk.states ==> h in r.disk.states && r.disk.states[h].appHash == n.disk.states[h].appHash
  {
    ReachableInv(p, n);
    var disk := n.disk;
    forall h | h in disk.blocks ensures disk.blocks[h].header.height == h {
      assert Linked(p, disk.blocks, disk.states, h);
    }
    forall h | h in disk.states && h >= e.height ensures R.DirectExec(p, disk.blocks, e, h).root == disk.states[h].appHash {
      DirectRootsAreStored(p, disk, e, h);
    }
    if e.height < p.initialHeight {
      assert Linked(p, disk.blocks, disk.states, p.initialHeight);
    }
    assert R.Replayable(p, disk, e, disk.height);
    R.SyncFromBehind(p, disk, e, disk.height);
  }

  // ---------------------------------------------------------------- equivocation

  ghost predicate Equivocates(n: Node) {
    exists g, h :: g in n.signed && h in n.signed && g.height == h.height && g != h
  }

  /** A call that created its own block gives up after signing it, with the pending flag unset
      and a chain block already stored. */
  predicate Dangerous(p: Params, n: Node, l: Label) {
    && (l.Abort? || l.Reject?)
    && n.proc.Running? && n.proc.mem.pc.Signed? && !n.proc.mem.hasPending
    && n.disk.height >= p.initialHeight
  }

  ghost predicate SafeRun(p: Params, n: Node, ls: seq<Label>)
    decreases ls
  {
    ls == [] || (!Dangerous(p, n, ls[0])
                 && (Next(p, n, ls[0]).Some? ==> SafeRun(p, Next(p, n, ls[0]).value, ls[1..])))
  }

  /** A node whose execution layer executed the first block that was then lost cannot execute, and
      so cannot sign, anything ever again. */
  ghost predicate Bricked(p: Params, n: Node) {
    && n.disk.height + 1 == p.initialHeight && n.exec.height == p.initialHeight
    && (n.proc.Running? ==> !n.proc.mem.pc.Executed? && !n.proc.mem.pc.Signed?)
  }

  /** A signature for the next height is remembered by the pending block, which the process
      will find again. */
  ghost predicate Guarded(p: Params, n: Node, g: Header) {
    || Bricked(p, n)
    || (n.disk.pendingHeader == Some(g)
        && match n.proc
           case Running(m) => m.hasPending || (m.pc.Signed? && m.pc.b.header == g)
           case Stopping => false
           case _ => true)
  }

  ghost predicate SignOk(p: Params, n: Node) {
    && !Equivocates(n)
    && (forall g :: g in n.signed && g.height <= n.disk.height ==>
          g.height in n.disk.blocks && n.disk.blocks[g.height].header == g)
    && (forall g :: g in n.signed && g.height == n.disk.height + 1 ==> Guarded(p, n, g))
  }

  lemma BootKeepsSignOk(p: Params, n: Node)
    requires ValidParams(p) && Inv(p, n) && SignOk(p, n)
    ensures NextBoot(p, n).Some? ==> SignOk(p, NextBoot(p, n).value)
  {
    if Live(p, n) {
      TipFacts(p, n.disk);
    }
  }

  lemma BootPersistKeepsSignOk(p: Params, n: Node)
    requires ValidParams(p) && Inv(p, n) && SignOk(p, n)
    ensures NextBootPersist(n).Some? ==> SignOk(p, NextBootPersist(n).value)
  {
    if Live(p, n) && n.proc.Loaded? {
      TipFacts(p, n.disk);
      assert NextBootPersist(n).value.disk == n.disk;
    }
  }

  lemma BootSyncKeepsSignOk(p: Params, n: Node)
    requires ValidParams(p) && Inv(p, n) && SignOk(p, n)
    ensures NextBootSync(p, n).Some? ==> SignOk(p, NextBootSync(p, n).value)
  {
    if Live(p, n) {
      TipFacts(p, n.disk);
    }
  }

  lemma CommitKeepsSignOk(p: Params, n: Node)
    requires ValidParams(p) && Inv(p, n) && SignOk(p, n)
    ensures NextCommit(p, n).Some? ==> SignOk(p, NextCommit(p, n).value)
  {
    if NextCommit(p, n).Some? {
      TipFacts(p, n.disk);
    }
  }

  lemma SignStepKeepsSignOk(p: Params, n: Node)
    requires ValidParams(p) && Inv(p, n) && SignOk(p, n)
    ensures NextSign(n).Some? ==> SignOk(p, NextSign(n).value)
  {
    if NextSign(n).Some? {
      forall g | g in n.signed && g.height == n.disk.height + 1 ensures g == n.proc.mem.pc.b.header {
        assert Guarded(p, n, g);
      }
    }
  }

  lemma BeginKeepsSignOk(p: Params, n: Node, batch: Option<Batch>)
    requires ValidParams(p) && Inv(p, n) && SignOk(p, n)
    ensures NextBegin(p, n, batch).Some? ==> SignOk(p, NextBegin(p, n, batch).value)
  {
    if NextBegin(p, n, batch).Some? {
      TipFacts(p, n.disk);
      var n' := NextBegin(p, n, batch).value;
      forall g | g in n'.signed && g.height == n'.disk.height + 1 ensures Guarded(p, n', g) {
        assert Guarded(p, n, g);
      }
    }
  }

  lemma SavePendingKeepsSignOk(p: Params, n: Node)
    requires ValidParams(p) && Inv(p, n) && SignOk(p, n)
    ensures NextSavePending(n).Some? ==> SignOk(p, NextSavePending(n).value)
  {
    if NextSavePending(n).Some? {
      TipFacts(p, n.disk);
      var n' := NextSavePending(n).value;
      forall g | g in n'.signed && g.height == n'.disk.height + 1 ensures Guarded(p, n', g) {
        assert Guarded(p, n, g);
      }
    }
  }

  lemma ExecuteKeepsSignOk(p: Params, n: Node, daHeight: nat)
    requires ValidParams(p) && Inv(p, n) && SignOk(p, n)
    ensures NextExecute(p, n, daHeight).Some? ==> SignOk(p, NextExecute(p, n, daHeight).value)
  {
    if NextExecute(p, n, daHeight).Some? {
      TipFacts(p, n.disk);
      var n' := NextExecute(p, n, daHeight).value;
      forall g | g in n'.signed && g.height == n'.disk.height + 1 ensures Guarded(p, n', g) {
        assert Guarded(p, n, g);
      }
    }
  }

  lemma DropKeepsSignOk(p: Params, n: Node, l: Label)
    requires ValidParams(p) && Inv(p, n) && SignOk(p, n) && !Dangerous(p, n, l) && (l.Abort? || l.Reject?)
    ensures Next(p, n, l).Some? ==> SignOk(p, Next(p, n, l).value)
  {
    if Next(p, n, l).Some? {
      var n' := Next(p, n, l).value;
      assert n'.signed == n.signed && n'.disk == n.disk;
      forall g | g in n'.signed && g.height == n'.disk.height + 1 ensures Guarded(p, n', g) {
        assert Guarded(p, n, g);
      }
    }
  }

  lemma EndKeepsSignOk(p: Params, n: Node, l: Label)
    requires ValidParams(p) && Inv(p, n) && SignOk(p, n)
    requires l.Stop? || l.StopData? || l.Crash?
    ensures Next(p, n, l).Some? ==> SignOk(p, Next(p, n, l).value)
  {
    if Next(p, n, l).Some? {
      var n' := Next(p, n, l).value;
      forall g | g in n'.signed && g.height == n'.disk.height + 1 ensures Guarded(p, n', g) {
        assert Guarded(p, n, g);
      }
    }
  }

  lemma StepKeepsSignOk(p: Params, n: Node, l: Label)
    requires ValidParams(p) && Inv(p, n) && SignOk(p, n) && !Dangerous(p, n, l)
    ensures Next(p, n, l).Some? ==> SignOk(p, Next(p, n, l).value)
  {
    match l
    case Boot => BootKeepsSignOk(p, n);
    case BootPersist => BootPersistKeepsSignOk(p, n);
    case BootSync => BootSyncKeepsSignOk(p, n);
    case Begin(batch) => BeginKeepsSignOk(p, n, batch);
    case SavePending => SavePendingKeepsSignOk(p, n);
    case Execute(d) => ExecuteKeepsSignOk(p, n, d);
    case Sign => SignStepKeepsSignOk(p, n);
    case Commit => CommitKeepsSignOk(p, n);
    case Abort => DropKeepsSignOk(p, n, l);
    case Reject => DropKeepsSignOk(p, n, l);
    case _ => EndKeepsSignOk(p, n, l);
  }

  lemma {:induction false} SafeRunKeepsSignOk(p: Params, n: Node, ls: seq<Label>)
    requires ValidParams(p) && Inv(p, n) && SignOk(p, n) && SafeRun(p, n, ls)
    ensures Run(p, n, ls).Some? ==> Inv(p, Run(p, n, ls).value) && SignOk(p, Run(p, n, ls).value)
    decreases ls
  {
    if ls != [] && Next(p, n, ls[0]).Some? {
      StepKeepsInv(p, n, ls[0]);
      StepKeepsSignOk(p, n, ls[0]);
      SafeRunKeepsSignOk(p, Next(p, n, ls[0]).value, ls[1..]);
    }
  }

  /** No equivocation: over every run without a Dangerous step, with crashes anywhere, all headers
      ever signed for one height are the same header, and a stored block's header is the signed one. */
  lemma NoEquivocation(p: Params, ls: seq<Label>)
    requires ValidParams(p) && SafeRun(p, NewNode, ls) && Run(p, NewNode, ls).Some?
    ensures
      var n := Run(p, NewNode, ls).value;
      && !Equivocates(n)
      && forall g :: g in n.signed && g.height <= n.disk.height ==>
           g.height in n.disk.blocks && n.disk.blocks[g.height].header == g
  {
    SafeRunKeepsSignOk(p, NewNode, ls);
  }

  // ---------------------------------------------------------------- the condition is exact

  /** An idle node with no pending flag creates its next block. */
  lemma BeginFresh(p: Params, n: Node, batch: Batch) returns (b: Block)
    requires ValidParams(p) && Reachable(p, n) && n.disk != EmptyDisk
    requires n.proc.Running? && n.proc.mem.pc.Idle? && !n.proc.mem.hasPending
    ensures Next(p, n, Begin(Some(batch))) == Some(n.(proc := Running(n.proc.mem.(pc := Created(b)))))
    ensures b.header.height == n.disk.height + 1
    ensures n.disk.height >= p.initialHeight ==> b.header.time == ToUint64(batch.time)
  {
    ReachableInv(p, n);
    TipFacts(p, n.disk);
    assert PreviousBlock(p, n.disk, n.proc.mem, n.disk.height + 1).Some?;
    b := CreateBlock(p, n.disk, n.proc.mem, batch).value;
  }

  /** From an idle node with no pending flag: begin a block at time `t`, save it as pending,
      crash, restart. The node comes up aligned and with that block pending. */
  lemma SaveThenCrash(p: Params, n: Node, t: int) returns (b: Block, n': Node, ls: seq<Label>)
    requires ValidParams(p) && Reachable(p, n) && n.disk != EmptyDisk && n.disk.height >= p.initialHeight
    requires n.proc.Running? && n.proc.mem.pc.Idle? && !n.proc.mem.hasPending
    ensures b.header.time == ToUint64(t) && b.header.height == n.disk.height + 1
    ensures Run(p, n, ls) == Some(n') && NoDrops(ls)
    ensures Reachable(p, n') && Aligned(n') && n'.signed == n.signed
    ensures AboutToProduce(p, n', b)
  {
    var begin := Begin(Some(Batch([], t)));
    b := BeginFresh(p, n, Batch([], t));
    var n1 := Next(p, n, begin).value;
    var n2 := Next(p, n1, SavePending).value;
    var saved := [begin, SavePending, Crash];
    RunThree(p, n, begin, SavePending, Crash);
    var n3 := Next(p, n2, Crash).value;
    ReachableRun(p, n, saved, n3);
    n' := RestartPending(p, n3, b);
    ls := saved + Restart;
    RunAppend(p, n, saved, Restart);
  }

  /** Idle, with `b` pending for the next height and the flag set. */
  ghost predicate AboutToProduce(p: Params, n: Node, b: Block) {
    && n.proc.Running? && n.proc.mem.pc.Idle? && n.proc.mem.hasPending
    && n.disk.pendingHeader == Some(b.header) && n.disk.pendingData == Some(b.data)
    && b.header.height == n.disk.height + 1
  }

  ghost predicate NoDrops(ls: seq<Label>) {
    forall i :: 0 <= i < |ls| ==> !ls[i].Abort? && !ls[i].Reject?
  }

  /** A restart with a pending block for the next height is about to produce that block. */
  lemma RestartPending(p: Params, n: Node, b: Block) returns (n': Node)
    requires ValidParams(p) && Reachable(p, n) && n.proc.Down? && n.disk.height >= p.initialHeight
    requires n.disk.pendingHeader == Some(b.header) && n.disk.pendingData == Some(b.data)
    requires b.header.height == n.disk.height + 1
    ensures Run(p, n, Restart) == Some(n')
    ensures Reachable(p, n') && Aligned(n') && n'.disk == n.disk && n'.signed == n.signed
    ensures AboutToProduce(p, n', b)
  {
    ReachableInv(p, n);
    RestartState(p, n);
    n' := Run(p, n, Restart).value;
    ReachableRun(p, n, Restart, n');
    assert n.disk.height in n.exec.versions;
  }

  /** An aligned node about to produce `b` executes and signs it. */
  lemma SignPending(p: Params, n: Node, b: Block) returns (n': Node)
    requires ValidParams(p) && Reachable(p, n) && Aligned(n) && AboutToProduce(p, n, b)
    ensures Run(p, n, [Begin(None), Execute(0), Sign]) == Some(n') && Reachable(p, n')
    ensures n'.signed == n.signed + {b.header} && n'.disk == n.disk
    ensures n'.proc.Running? && n'.proc.mem.pc.Signed? && n'.proc.mem.pc.b == b
  {
    ReachableInv(p, n);
    TipFacts(p, n.disk);
    var n1 := Next(p, n, Begin(None)).value;
    var n2 := Next(p, n1, Execute(0)).value;
    n' := Next(p, n2, Sign).value;
    RunThree(p, n, Begin(None), Execute(0), Sign);
    ReachableRun(p, n, [Begin(None), Execute(0), Sign], n');
  }

  lemma {:induction false} NoDropsIsSafe(p: Params, n: Node, ls: seq<Label>)
    requires NoDrops(ls)
    ensures SafeRun(p, n, ls)
    decreases ls
  {
    if ls != [] && Next(p, n, ls[0]).Some? {
      NoDropsIsSafe(p, Next(p, n, ls[0]).value, ls[1..]);
    }
  }

  /** A block time that differs from `taken` and, unless the clock is at its very end, is not before
      the last block's. */
  lemma LaterTime(last: int, taken: nat) returns (t: int)
    requires last + I64 >= 0
    ensures ToUint64(t) != taken
    ensures last + 1 < I64 ==> ToInt64(ToUint64(t)) >= last
  {
    t := if last + 1 >= I64 then (if taken == 0 then 1 else 0) else if ToUint64(last) != taken then last else last + 1;
    if last + 1 < I64 {
      SignedRoundTrip(last);
      SignedRoundTrip(last + 1);
    }
  }

  lemma SignedRoundTrip(t: int)
    requires t + I64 >= 0 && t < I64
    ensures ToInt64(ToUint64(t)) == t
  {
    assert t < 0 ==> ToUint64(t) == t + U64;
  }

  /** Every Dangerous step can be continued, without another one, to a node that has signed two
      different headers for one height: the next call overwrites the pending block, and after a
      restart that second block is executed and signed. The second header is one that an ordinary
      sequencer yields: its time is not before the last block's. */
  lemma DangerousStepEquivocates(p: Params, n: Node, l: Label) returns (ls: seq<Label>, n': Node, again: Header)
    requires ValidParams(p) && Reachable(p, n) && Dangerous(p, n, l) && Next(p, n, l).Some?
    ensures Run(p, Next(p, n, l).value, ls) == Some(n') && SafeRun(p, Next(p, n, l).value, ls)
    ensures Reachable(p, n') && Equivocates(n')
    ensures n.proc.mem.pc.b.header in n'.signed && again in n'.signed && again != n.proc.mem.pc.b.header
    ensures again.height == n.proc.mem.pc.b.header.height
    ensures n.proc.mem.lastState.lastBlockTime + 1 < I64 ==> HeaderTime(again) >= n.proc.mem.lastState.lastBlockTime
  {
    ReachableInv(p, n);
    ReachableStep(p, n, l);
    var n0 := Next(p, n, l).value;
    var lost := n.proc.mem.pc.b.header;
    assert Linked(p, n.disk.blocks, n.disk.states, n.disk.height);
    var t := LaterTime(n.proc.mem.lastState.lastBlockTime, lost.time);
    var b, n1, saved := SaveThenCrash(p, n0, t);
    n' := SignPending(p, n1, b);
    ls := saved + [Begin(None), Execute(0), Sign];
    RunAppend(p, n0, saved, [Begin(None), Execute(0), Sign]);
    NoDropsIsSafe(p, n0, ls);
    again := b.header;
    assert lost in n'.signed && b.header in n'.signed && lost.height == b.header.height && lost != b.header;
  }

  ghost predicate SafelyReachable(p: Params, n: Node) {
    exists ls :: SafeRun(p, NewNode, ls) && Run(p, NewNode, ls) == Some(n)
  }

  /** Giving up a call after an otherwise safe run is harmless exactly when it is not Dangerous. */
  lemma GivingUpIsSafeIffNotDangerous(p: Params, n: Node, l: Label)
    requires ValidParams(p) && SafelyReachable(p, n) && (l.Abort? || l.Reject?) && Next(p, n, l).Some?
    ensures
      var n' := Next(p, n, l).value;
      !Dangerous(p, n, l) <==>
        forall ls :: SafeRun(p, n', ls) && Run(p, n', ls).Some? ==> !Equivocates(Run(p, n', ls).value)
  {
    var before :| SafeRun(p, NewNode, before) && Run(p, NewNode, before) == Some(n);
    var n' := Next(p, n, l).value;
    if Dangerous(p, n, l) {
      assert Reachable(p, n);
      var ls, _, _ := DangerousStepEquivocates(p, n, l);
    } else {
      SafeRunKeepsSignOk(p, NewNode, before);
      StepKeepsInv(p, n, l);
      StepKeepsSignOk(p, n, l);
      forall ls | SafeRun(p, n', ls) && Run(p, n', ls).Some? ensures !Equivocates(Run(p, n', ls).value) {
        SafeRunKeepsSignOk(p, n', ls);
      }
    }
  }

  /** A signed block is committed unless its timestamp precedes that of a hashed predecessor. */
  lemma CommitSigned(p: Params, n: Node)
    requires ValidParams(p) && Reachable(p, n) && n.proc.Running? && n.proc.mem.pc.Signed?
    ensures
      var m, r := n.proc.mem, Next(p, n, Commit);
      && n.disk.height in n.disk.states && m.lastState == n.disk.states[n.disk.height]
      && (r.Some? <==> m.lastState.lastHeaderHash == [] || m.lastState.lastBlockTime <= HeaderTime(m.pc.b.header))
      && (r.Some? ==>
            && Reachable(p, r.value) && r.value.disk.height == n.disk.height + 1 && Aligned(r.value)
            && r.value.disk.blocks == n.disk.blocks[n.disk.height + 1 := m.pc.b]
            && r.value.proc.Running? && r.value.proc.mem.pc.Idle? && !r.value.proc.mem.hasPending)
  {
    ReachableInv(p, n);
    TipFacts(p, n.disk);
    if Next(p, n, Commit).Some? {
      ReachableStep(p, n, Commit);
    }
  }

  /** A fresh block on an aligned idle node gets executed and signed, with the flag still unset. */
  lemma SaveFresh(p: Params, n: Node, batch: Batch) returns (n': Node)
    requires ValidParams(p) && Reachable(p, n) && n.disk != EmptyDisk
    requires n.proc.Running? && n.proc.mem.pc.Idle? && !n.proc.mem.hasPending
    ensures Reachable(p, n') && n'.disk.height == n.disk.height && n'.exec == n.exec
    ensures n'.proc.Running? && n'.proc.mem.pc.Saved? && n'.proc.mem == n.proc.mem.(pc := n'.proc.mem.pc)
    ensures n'.proc.mem.pc.b.header.height == n.disk.height + 1
  {
    var b := BeginFresh(p, n, batch);
    ReachableStep(p, n, Begin(Some(batch)));
    var n1 := n.(proc := Running(n.proc.mem.(pc := Created(b))));
    n' := Next(p, n1, SavePending).value;
    ReachableStep(p, n1, SavePending);
  }

  /** The executor of an aligned idle node is ready for the next block. */
  lemma AlignedIsReady(p: Params, n: Node)
    requires ValidParams(p) && Reachable(p, n) && n.disk != EmptyDisk && Aligned(n) && n.proc.Running?
    ensures n.exec.initialized && n.exec.root == n.proc.mem.lastState.appHash
  {
    ReachableInv(p, n);
    TipFacts(p, n.disk);
  }

  lemma SignFresh(p: Params, n: Node, batch: Batch) returns (n': Node)
    requires ValidParams(p) && Reachable(p, n) && n.disk != EmptyDisk && Aligned(n)
    requires n.proc.Running? && n.proc.mem.pc.Idle? && !n.proc.mem.hasPending
    ensures Reachable(p, n') && n'.disk.height == n.disk.height
    ensures n'.proc.Running? && n'.proc.mem.pc.Signed? && !n'.proc.mem.hasPending
    ensures n'.proc.mem.lastState == n.proc.mem.lastState
  {
    AlignedIsReady(p, n);
    var n1 := SaveFresh(p, n, batch);
    var n2 := Next(p, n1, Execute(0)).value;
    ReachableStep(p, n1, Execute(0));
    n' := Next(p, n2, Sign).value;
    ReachableStep(p, n2, Sign);
  }

  /** For every genesis and application there is a run of the code as it is that signs two headers
      for one height: start, produce two blocks, fail the commit of the second, carry on. So the
      restriction to safe runs is needed. */
  lemma FailedCommitEquivocates(p: Params) returns (n: Node)
    requires ValidParams(p)
    ensures Reachable(p, n) && Equivocates(n)
  {
    var n0 := FirstStart(p);
    var n1 := SignFresh(p, n0, Batch([], 0));
    CommitSigned(p, n1);
    var n2 := Next(p, n1, Commit).value;
    var n3 := SignFresh(p, n2, Batch([], n2.proc.mem.lastState.lastBlockTime));
    var l := if Next(p, n3, Abort).Some? then Abort else Reject;
    var _, n4, _ := DangerousStepEquivocates(p, n3, l);
    n := n4;
  }

  /** The very first start initializes the chain and comes up aligned. */
  lemma FirstStart(p: Params) returns (n: Node)
    requires ValidParams(p)
    ensures Reachable(p, n) && n.disk != EmptyDisk && Aligned(n) && n.disk.height == p.initialHeight - 1
    ensures n.proc.Running? && n.proc.mem.pc.Idle? && !n.proc.mem.hasPending
    ensures n.proc.mem.lastState.lastHeaderHash == []
  {
    var n1 := Next(p, NewNode, Boot).value;
    var n2 := Next(p, n1, BootPersist).value;
    n := Next(p, n2, BootSync).value;
    RunThree(p, NewNode, Boot, BootPersist, BootSync);
    assert n.disk.states != map[];
  }

  // ---------------------------------------------------------------- progress

  /** A pending block survives a crash: after a restart the next call commits exactly that block,
      unless its timestamp precedes the last block's. */
  lemma PendingBlockIsCommitted(p: Params, n: Node, b: Block) returns (up: Node, signed: Node)
    requires ValidParams(p) && Reachable(p, n) && n.proc.Down? && n.disk.height >= p.initialHeight
    requires n.disk.pendingHeader == Some(b.header) && n.disk.pendingData == Some(b.data)
    requires b.header.height == n.disk.height + 1
    ensures Run(p, n, Restart) == Some(up)
    ensures Run(p, up, [Begin(None), Execute(0), Sign]) == Some(signed)
    ensures n.disk.height in n.disk.states
    ensures CommitsPending(p, n.disk, b, Next(p, signed, Commit))
  {
    up := RestartPending(p, n, b);
    signed := SignPending(p, up, b);
    CommitOfPending(p, n.disk, b, signed);
  }

  /** The commit of `b` on top of `disk` goes through unless its time precedes the tip's, and then
      extends the chain by exactly `b`. */
  ghost predicate CommitsPending(p: Params, disk: Disk, b: Block, r: Option<Node>)
    requires disk.height in disk.states
  {
    var tip := disk.states[disk.height];
    && (r.Some? <==> tip.lastHeaderHash == [] || tip.lastBlockTime <= HeaderTime(b.header))
    && (r.Some? ==> r.value.disk.height == disk.height + 1 && Aligned(r.value)
                    && r.value.disk.blocks == disk.blocks[disk.height + 1 := b])
  }

  lemma CommitOfPending(p: Params, disk: Disk, b: Block, signed: Node)
    requires ValidParams(p) && Reachable(p, signed) && signed.disk == disk
    requires signed.proc.Running? && signed.proc.mem.pc.Signed? && signed.proc.mem.pc.b == b
    ensures disk.height in disk.states && CommitsPending(p, disk, b, Next(p, signed, Commit))
  {
    CommitSigned(p, signed);
  }
}

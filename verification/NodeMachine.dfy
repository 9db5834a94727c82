/** A sequencer node as a state machine with one step per durable effect of block production
    (block/internal/executing/executor.go, pending.go) and of start-up, and with a crash possible
    anywhere. Raft is off; the execution layer is the one of ExecutionLayer. */
module NodeMachine {
  import opened Basics
  import opened Chain
  import opened NodeTypes
  import R = Replay
  import L = ExecutionLayer

  datatype LastBlock = LastBlock(headerHash: Hash, dataHash: Hash)

  /** What the sequencer hands out; nothing is known about its timestamps. */
  datatype Batch = Batch(txs: seq<Tx>, time: int)

  /** How far the current ProduceBlock call has come. */
  datatype Pc =
    | Idle
    | Created(b: Block)
    | Saved(b: Block)
    | Executed(b: Block, next: ChainState)
    | Signed(b: Block, next: ChainState)

  datatype Memory = Memory(
    lastState: ChainState, hasPending: bool, lastBlock: Option<LastBlock>, hashErrs: nat, pc: Pc)

  datatype Proc =
    | Down
    | Loaded(state: ChainState)     // initializeState has the state, nothing written yet
    | Persisted(state: ChainState)  // its height/state batch is committed
    | Running(mem: Memory)
    | Stopping                      // Stop deleted the pending header, not yet the data

  /** `signed` is history: every header the signer has ever been asked to sign. */
  datatype Node = Node(disk: Disk, exec: L.Exec, proc: Proc, signed: set<Header>)

  datatype Label =
    | Boot | BootPersist | BootSync
    | Begin(batch: Option<Batch>) | SavePending | Execute(daHeight: nat) | Sign | Commit
    | Abort   // the call returns an error: I/O, cancellation, a failed execution or signature
    | Reject  // the call returns an error because AssertValidSequence refuses the signed header
    | Stop | StopData
    | Crash

  const NewNode: Node := Node(EmptyDisk, L.FreshExec, Down, {})

  function Warm(p: Params, disk: Disk, s: ChainState): Option<LastBlock> {
    if s.lastBlockHeight > 0 && s.lastBlockHeight in disk.blocks then
      var b := disk.blocks[s.lastBlockHeight];
      Some(LastBlock(p.hash(b.header), p.dataHash(b.data)))
    else None
  }

  /** The hashes of the previous block: from memory, or from the store on a cold start. */
  function PreviousBlock(p: Params, disk: Disk, m: Memory, height: nat): Option<LastBlock> {
    if height <= p.initialHeight then Some(LastBlock([], []))
    else if m.lastBlock.Some? then m.lastBlock
    else if height - 1 in disk.blocks then
      Some(LastBlock(p.hash(disk.blocks[height - 1].header), p.dataHash(disk.blocks[height - 1].data)))
    else None
  }

  function CreateBlock(p: Params, disk: Disk, m: Memory, batch: Batch): Option<Block> {
    var height := m.lastState.lastBlockHeight + 1;
    var prev := PreviousBlock(p, disk, m, height);
    if prev.None? then None
    else
      var time := ToUint64(if height > p.initialHeight then batch.time else p.startTime);
      var header := Header(
        m.lastState.version, p.chainId, height, time, prev.value.headerHash,
        if batch.txs == [] then p.emptyTxsHash else p.commitment(batch.txs),
        m.lastState.appHash, p.validatorHash, p.proposer);
      Some(Block(header, Data(p.chainId, height, time, prev.value.dataHash, batch.txs)))
  }

  function NextBoot(p: Params, n: Node): Option<Node> {
    if !n.proc.Down? then None
    else if n.disk.height in n.disk.states then Some(n.(proc := Loaded(n.disk.states[n.disk.height])))
    else
      var r := L.InitChain(p.app, n.exec, p.initialHeight, p.chainId);
      if r.result.Err? then Some(n.(exec := r.state))
      else Some(n.(exec := r.state, proc := Loaded(GenesisState(p, r.result.value, p.daStartHeight))))
  }

  function NextBootPersist(n: Node): Option<Node> {
    if !n.proc.Loaded? then None
    else
      var s := n.proc.state;
      Some(n.(disk := n.disk.(height := Max(n.disk.height, s.lastBlockHeight),
                              states := n.disk.states[s.lastBlockHeight := s]),
              proc := Persisted(s)))
  }

  function NextBootSync(p: Params, n: Node): Option<Node> {
    if !n.proc.Persisted? then None
    else
      var s := n.proc.state;
      var r := R.SyncToHeight(p, n.disk, n.exec, s.lastBlockHeight);
      var m := Memory(s, n.disk.pendingHeader.Some?, Warm(p, n.disk, s), 0, Idle);
      Some(n.(disk := r.disk, exec := r.exec, proc := if r.error.None? then Running(m) else Down))
  }

  /** The pending block is reused when it belongs to the height about to be produced. */
  predicate UsesPending(disk: Disk, m: Memory) {
    && m.hasPending && disk.pendingHeader.Some? && disk.pendingData.Some?
    && disk.pendingHeader.value.height == m.lastState.lastBlockHeight + 1
  }

  function NextBegin(p: Params, n: Node, batch: Option<Batch>): Option<Node> {
    if !n.proc.Running? || !n.proc.mem.pc.Idle? then None
    else
      var m := n.proc.mem;
      if m.hasPending && n.disk.pendingHeader.Some? && n.disk.pendingData.None? then Some(n)  // corrupt state error
      else if UsesPending(n.disk, m) then
        Some(n.(proc := Running(m.(pc := Saved(Block(n.disk.pendingHeader.value, n.disk.pendingData.value))))))
      else if batch.None? then Some(n)
      else
        var b := CreateBlock(p, n.disk, m, batch.value);
        if b.None? then Some(n) else Some(n.(proc := Running(m.(pc := Created(b.value)))))
  }

  function NextSavePending(n: Node): Option<Node> {
    if !n.proc.Running? || !n.proc.mem.pc.Created? then None
    else
      var b := n.proc.mem.pc.b;
      Some(n.(disk := n.disk.(pendingHeader := Some(b.header), pendingData := Some(b.data)),
              proc := Running(n.proc.mem.(pc := Saved(b)))))
  }

  /** Enabled when the execution layer accepts the block; otherwise the call can only Abort. */
  function NextExecute(p: Params, n: Node, daHeight: nat): Option<Node> {
    if !n.proc.Running? || !n.proc.mem.pc.Saved? then None
    else
      var m, b := n.proc.mem, n.proc.mem.pc.b;
      var r := L.ExecuteTxs(p.app, n.exec, b.data.txs, b.header.height, HeaderTime(b.header), m.lastState.appHash);
      if r.result.Err? then None
      else
        var next := NextState(m.lastState, b.header, r.result.value, p.hash).(daHeight := daHeight);
        Some(n.(exec := r.state, proc := Running(m.(pc := Executed(b, next)))))
  }

  function NextSign(n: Node): Option<Node> {
    if !n.proc.Running? || !n.proc.mem.pc.Executed? then None
    else
      var m := n.proc.mem;
      Some(n.(signed := n.signed + {m.pc.b.header}, proc := Running(m.(pc := Signed(m.pc.b, m.pc.next)))))
  }

  function NextCommit(p: Params, n: Node): Option<Node> {
    if !n.proc.Running? || !n.proc.mem.pc.Signed? then None
    else
      var m, b, s := n.proc.mem, n.proc.mem.pc.b, n.proc.mem.pc.next;
      var v := CheckSequence(m.lastState, b.header, m.hashErrs);
      if v.error.Some? then None
      else
        var newHeight := m.lastState.lastBlockHeight + 1;
        Some(n.(
          disk := n.disk.(height := Max(n.disk.height, newHeight),
                          blocks := n.disk.blocks[b.header.height := b],
                          states := n.disk.states[s.lastBlockHeight := s]),
          proc := Running(Memory(s, false, Some(LastBlock(s.lastHeaderHash, p.dataHash(b.data))), v.count, Idle))))
  }

  function NextReject(n: Node): Option<Node> {
    if !n.proc.Running? || !n.proc.mem.pc.Signed? then None
    else
      var m := n.proc.mem;
      var v := CheckSequence(m.lastState, m.pc.b.header, m.hashErrs);
      if v.error.None? then None else Some(n.(proc := Running(m.(hashErrs := v.count, pc := Idle))))
  }

  /** A signed header is validated at once, so a call that gives up after signing has passed that check. */
  function NextAbort(n: Node): Option<Node> {
    if !n.proc.Running? || n.proc.mem.pc.Idle? then None
    else
      var m := n.proc.mem;
      if !m.pc.Signed? then Some(n.(proc := Running(m.(pc := Idle))))
      else
        var v := CheckSequence(m.lastState, m.pc.b.header, m.hashErrs);
        if v.error.Some? then None else Some(n.(proc := Running(m.(hashErrs := v.count, pc := Idle))))
  }

  /** Stop waits for the running call, then deletes a pending block it does not know about. */
  function NextStop(n: Node): Option<Node> {
    if !n.proc.Running? || !n.proc.mem.pc.Idle? then None
    else if n.proc.mem.hasPending then Some(n.(proc := Down))
    else Some(n.(disk := n.disk.(pendingHeader := None), proc := Stopping))
  }

  function NextStopData(n: Node): Option<Node> {
    if !n.proc.Stopping? then None else Some(n.(disk := n.disk.(pendingData := None), proc := Down))
  }

  function Next(p: Params, n: Node, l: Label): Option<Node> {
    match l
    case Boot => NextBoot(p, n)
    case BootPersist => NextBootPersist(n)
    case BootSync => NextBootSync(p, n)
    case Begin(batch) => NextBegin(p, n, batch)
    case SavePending => NextSavePending(n)
    case Execute(d) => NextExecute(p, n, d)
    case Sign => NextSign(n)
    case Commit => NextCommit(p, n)
    case Abort => NextAbort(n)
    case Reject => NextReject(n)
    case Stop => NextStop(n)
    case StopData => NextStopData(n)
    case Crash => Some(n.(proc := Down))
  }

  // ---------------------------------------------------------------- the steps of one call

  /** Where the environment fails a ProduceBlock call. */
  datatype Faults = Faults(save: bool, execute: bool, sign: bool, commit: bool)

  /** A new block has been created and is not saved yet; a block is saved. */
  predicate HasCreated(n: Option<Node>) {
    n.Some? && n.value.proc.Running? && n.value.proc.mem.pc.Created?
  }

  predicate HasSaved(n: Option<Node>) {
    n.Some? && n.value.proc.Running? && n.value.proc.mem.pc.Saved?
  }

  /** Up to a saved block: begin, and save the block if it is a new one. */
  function ObtainPath(p: Params, n: Node, batch: Option<Batch>, fault: bool): seq<Label> {
    if !HasCreated(Next(p, n, Begin(batch))) then [Begin(batch)]
    else [Begin(batch), if fault then Abort else SavePending]
  }

  /** From a signed header to the end of the call. */
  function LastStep(p: Params, n: Node, fault: bool): Label {
    if Next(p, n, Commit).None? then Reject else if fault then Abort else Commit
  }

  /** From an executed block to the end of the call. */
  function SignPath(p: Params, n: Node, f: Faults): seq<Label> {
    if f.sign || Next(p, n, Sign).None? then [Abort] else [Sign, LastStep(p, Next(p, n, Sign).value, f.commit)]
  }

  /** From a saved block to the end of the call. */
  function FinishPath(p: Params, n: Node, daHeight: nat, f: Faults): seq<Label> {
    if f.execute || Next(p, n, Execute(daHeight)).None? then [Abort]
    else [Execute(daHeight)] + SignPath(p, Next(p, n, Execute(daHeight)).value, f)
  }

  /** One ProduceBlock call as a path. */
  function CallPath(p: Params, n: Node, batch: Option<Batch>, daHeight: nat, f: Faults): seq<Label> {
    var obtain := ObtainPath(p, n, batch, f.save);
    var n' := Run(p, n, obtain);
    if HasSaved(n') then obtain + FinishPath(p, n'.value, daHeight, f) else obtain
  }

  /** The state after a whole run, or None when some step was not enabled. */
  function Run(p: Params, n: Node, ls: seq<Label>): Option<Node>
    decreases ls
  {
    if ls == [] then Some(n)
    else
      var n' := Next(p, n, ls[0]);
      if n'.None? then None else Run(p, n'.value, ls[1..])
  }

  lemma {:induction false} RunAppend(p: Params, n: Node, a: seq<Label>, b: seq<Label>)
    ensures Run(p, n, a + b) == (if Run(p, n, a).None? then None else Run(p, Run(p, n, a).value, b))
    decreases a
  {
    if a == [] {
      assert a + b == b;
    } else {
      assert (a + b)[0] == a[0] && (a + b)[1..] == a[1..] + b;
      var n' := Next(p, n, a[0]);
      if n'.Some? {
        RunAppend(p, n'.value, a[1..], b);
      }
    }
  }

  // ---------------------------------------------------------------- the invariant of all runs

  ghost predicate GenesisExec(p: Params, e: L.Exec) {
    e.initialized && e.chainId == p.chainId && e.height == p.initialHeight - 1
    && e.root == p.app.GenesisRoot() && e.versions == p.app.GenesisVersions(p.initialHeight)
  }

  /** Before the first state is on disk. */
  ghost predicate BeforeGenesis(p: Params, n: Node)
    requires ValidParams(p)
  {
    && n.disk == EmptyDisk && n.signed == {}
    && (n.exec == L.FreshExec || GenesisExec(p, n.exec))
    && (n.proc.Down? ||
        (n.proc == Loaded(GenesisState(p, p.app.GenesisRoot(), p.daStartHeight)) && GenesisExec(p, n.exec)))
  }

  /** Block `h` continues the chain below it, and its stored state is what executing it gives. */
  ghost predicate Linked(p: Params, blocks: map<nat, Block>, states: map<nat, ChainState>, h: nat)
    requires h >= 1 && h in blocks && h in states && h - 1 in states
  {
    var b, prev, s := blocks[h], states[h - 1], states[h];
    && b.header.height == h && b.header.chainId == p.chainId && s.chainId == p.chainId
    && b.header.appHash == prev.appHash
    && (h > p.initialHeight ==> b.header.lastHeaderHash == prev.lastHeaderHash)
    && s == NextState(prev, b.header, p.app.apply(prev.appHash, L.NonEmpty(b.data.txs), h, HeaderTime(b.header)), p.hash)
             .(daHeight := s.daHeight)
  }

  ghost predicate ChainOk(p: Params, disk: Disk)
    requires ValidParams(p)
  {
    && disk.height + 1 >= p.initialHeight
    && (forall h :: h in disk.states <==> p.initialHeight - 1 <= h <= disk.height)
    && (forall h :: h in disk.blocks <==> p.initialHeight <= h <= disk.height)
    && disk.states[p.initialHeight - 1] == GenesisState(p, p.app.GenesisRoot(), p.daStartHeight)
    && (forall h :: p.initialHeight <= h <= disk.height ==> Linked(p, disk.blocks, disk.states, h))
  }

  lemma TipFacts(p: Params, disk: Disk)
    requires ValidParams(p) && ChainOk(p, disk)
    ensures disk.height in disk.states
    ensures disk.states[disk.height].lastBlockHeight == disk.height
    ensures disk.states[disk.height].chainId == p.chainId
    ensures disk.height >= p.initialHeight ==>
              disk.height in disk.blocks
              && disk.states[disk.height].lastHeaderHash == p.hash(disk.blocks[disk.height].header)
  {
    if disk.height >= p.initialHeight {
      assert Linked(p, disk.blocks, disk.states, disk.height);
    }
  }

  ghost predicate ExecOk(p: Params, disk: Disk, e: L.Exec)
    requires ValidParams(p) && ChainOk(p, disk)
  {
    && e.initialized && e.chainId == p.chainId
    && disk.height <= e.height <= disk.height + 1
    && (forall h :: p.initialHeight <= h <= disk.height ==> h in e.versions && e.versions[h] == disk.states[h].appHash)
    && (e.height == disk.height ==> e.root == disk.states[disk.height].appHash)
  }

  /** `h` is a header for the next height, built on the stored tip. */
  ghost predicate BuiltOn(p: Params, disk: Disk, h: Header)
    requires ValidParams(p) && ChainOk(p, disk)
  {
    && h.height == disk.height + 1 && h.chainId == p.chainId
    && h.appHash == disk.states[disk.height].appHash
    && (disk.height >= p.initialHeight ==> h.lastHeaderHash == disk.states[disk.height].lastHeaderHash)
  }

  ghost predicate PendingOk(p: Params, disk: Disk)
    requires ValidParams(p) && ChainOk(p, disk)
  {
    disk.pendingHeader.Some? ==>
      && disk.pendingData.Some?
      && disk.pendingHeader.value.height <= disk.height + 1
      && (disk.pendingHeader.value.height == disk.height + 1 ==> BuiltOn(p, disk, disk.pendingHeader.value))
  }

  ghost predicate ExecutedOk(p: Params, n: Node, m: Memory, b: Block, s: ChainState) {
    && n.exec.height == n.disk.height + 1
    && n.exec.height in n.exec.versions && n.exec.versions[n.exec.height] == n.exec.root
    && n.exec.root == p.app.apply(m.lastState.appHash, L.NonEmpty(b.data.txs), b.header.height, HeaderTime(b.header))
    && s == NextState(m.lastState, b.header, n.exec.root, p.hash).(daHeight := s.daHeight)
  }

  ghost predicate MemOk(p: Params, n: Node, m: Memory)
    requires ValidParams(p) && ChainOk(p, n.disk)
  {
    && m.lastState == n.disk.states[n.disk.height]
    && m.hashErrs == 0
    && (m.lastBlock.Some? && n.disk.height >= p.initialHeight ==>
          m.lastBlock.value.headerHash == n.disk.states[n.disk.height].lastHeaderHash)
    && (!m.pc.Idle? ==> BuiltOn(p, n.disk, m.pc.b.header))
    && (m.pc.Created? ==> !UsesPending(n.disk, m))
    && (m.pc.Saved? || m.pc.Executed? || m.pc.Signed? ==>
          n.disk.pendingHeader == Some(m.pc.b.header) && n.disk.pendingData == Some(m.pc.b.data))
    && (m.pc.Executed? || m.pc.Signed? ==> ExecutedOk(p, n, m, m.pc.b, m.pc.next))
    && (m.pc.Signed? ==> m.pc.b.header in n.signed)
  }

  ghost predicate ProcOk(p: Params, n: Node)
    requires ValidParams(p) && ChainOk(p, n.disk)
  {
    match n.proc
    case Down => true
    case Loaded(s) => s == n.disk.states[n.disk.height]
    case Persisted(s) => s == n.disk.states[n.disk.height]
    case Running(m) => MemOk(p, n, m)
    case Stopping => n.disk.pendingHeader.None?
  }

  ghost predicate Live(p: Params, n: Node)
    requires ValidParams(p)
  {
    && ChainOk(p, n.disk) && ExecOk(p, n.disk, n.exec) && PendingOk(p, n.disk) && ProcOk(p, n)
    && forall g :: g in n.signed ==> g.height <= n.disk.height + 1
  }

  ghost predicate Inv(p: Params, n: Node)
    requires ValidParams(p)
  {
    BeforeGenesis(p, n) || Live(p, n)
  }

  lemma BootKeepsInv(p: Params, n: Node)
    requires ValidParams(p) && Inv(p, n)
    ensures NextBoot(p, n).Some? ==> Inv(p, NextBoot(p, n).value)
  {
  }

  lemma BootPersistKeepsInv(p: Params, n: Node)
    requires ValidParams(p) && Inv(p, n)
    ensures NextBootPersist(n).Some? ==> Live(p, NextBootPersist(n).value)
  {
    if n.proc.Loaded? {
      var n' := NextBootPersist(n).value;
      if BeforeGenesis(p, n) {
        assert n'.disk.height == p.initialHeight - 1;
        assert ChainOk(p, n'.disk);
      } else {
        TipFacts(p, n.disk);
        assert n'.disk == n.disk;
      }
    }
  }

  lemma BootSyncKeepsInv(p: Params, n: Node)
    requires ValidParams(p) && Inv(p, n)
    ensures NextBootSync(p, n).Some? ==> Live(p, NextBootSync(p, n).value)
  {
    if n.proc.Persisted? {
      TipFacts(p, n.disk);
    }
  }

  lemma BeginKeepsInv(p: Params, n: Node, batch: Option<Batch>)
    requires ValidParams(p) && Inv(p, n)
    ensures NextBegin(p, n, batch).Some? ==> Live(p, NextBegin(p, n, batch).value)
  {
    if n.proc.Running? {
      TipFacts(p, n.disk);
    }
  }

  lemma SavePendingKeepsInv(p: Params, n: Node)
    requires ValidParams(p) && Inv(p, n)
    ensures NextSavePending(n).Some? ==> Live(p, NextSavePending(n).value)
  {
  }

  lemma ExecuteKeepsInv(p: Params, n: Node, d: nat)
    requires ValidParams(p) && Inv(p, n)
    ensures NextExecute(p, n, d).Some? ==> Live(p, NextExecute(p, n, d).value)
  {
  }

  lemma SignKeepsInv(p: Params, n: Node)
    requires ValidParams(p) && Inv(p, n)
    ensures NextSign(n).Some? ==> Live(p, NextSign(n).value)
  {
  }

  /** Adding an executed block built on the tip extends the chain by one linked block. */
  lemma ExtendChain(p: Params, disk: Disk, b: Block, s: ChainState, disk': Disk)
    requires ValidParams(p) && ChainOk(p, disk) && BuiltOn(p, disk, b.header)
    requires
      var tip := disk.states[disk.height];
      s == NextState(tip, b.header,
                     p.app.apply(tip.appHash, L.NonEmpty(b.data.txs), disk.height + 1, HeaderTime(b.header)), p.hash)
            .(daHeight := s.daHeight)
    requires disk'.height == disk.height + 1
    requires disk'.blocks == disk.blocks[disk.height + 1 := b] && disk'.states == disk.states[disk.height + 1 := s]
    ensures ChainOk(p, disk')
  {
    TipFacts(p, disk);
    forall h | h in disk'.blocks
      ensures h in disk'.states && h >= 1 && h - 1 in disk'.states && Linked(p, disk'.blocks, disk'.states, h)
    {
      if h <= disk.height {
        assert Linked(p, disk.blocks, disk.states, h);
      }
    }
  }

  lemma CommitKeepsInv(p: Params, n: Node)
    requires ValidParams(p) && Inv(p, n)
    ensures NextCommit(p, n).Some? ==> Live(p, NextCommit(p, n).value)
  {
    if NextCommit(p, n).Some? {
      TipFacts(p, n.disk);
      ExtendChain(p, n.disk, n.proc.mem.pc.b, n.proc.mem.pc.next, NextCommit(p, n).value.disk);
    }
  }
}

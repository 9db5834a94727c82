/** What a sequencer node keeps on disk, and the fixed parameters it runs with. */
module NodeTypes {
  import opened Basics
  import opened Chain
  import opened ExecutionLayer

  datatype Block = Block(header: Header, data: Data)

  /** The store as the block producer sees it: chain height (0 when unset), blocks and states by
      height, and the two metadata entries of a pending block. */
  datatype Disk = Disk(
    height: nat, blocks: map<nat, Block>, states: map<nat, ChainState>,
    pendingHeader: Option<Header>, pendingData: Option<Data>)

  const EmptyDisk: Disk := Disk(0, map[], map[], None, None)

  /** Genesis, the application, and the digests, all of them unknown functions. */
  datatype Params = Params(
    chainId: string, initialHeight: nat, startTime: int, proposer: Bytes, daStartHeight: nat,
    app: App, hash: Header -> Hash, dataHash: Data -> Hash, commitment: seq<Tx> -> Hash,
    emptyTxsHash: Hash, validatorHash: Hash)

  /** What genesis validation and InitChain demand. */
  predicate ValidParams(p: Params) {
    p.initialHeight >= 1 && p.chainId != ""
  }

  function GenesisState(p: Params, root: Root, daHeight: nat): ChainState {
    ChainState(Version(0, 0), p.chainId, p.initialHeight, Max(p.initialHeight, 1) - 1, p.startTime, [], daHeight, root)
  }

  /** Blocks are stored under the height their header carries. */
  ghost predicate WellKeyed(disk: Disk) {
    forall h :: h in disk.blocks ==> disk.blocks[h].header.height == h
  }

  /** The store object, changed in place through committed batches. */
  class NodeStore {
    var height: nat
    var blocks: map<nat, Block>
    var states: map<nat, ChainState>
    var pendingHeader: Option<Header>
    var pendingData: Option<Data>

    ghost function Contents(): Disk reads this {
      Disk(height, blocks, states, pendingHeader, pendingData)
    }

    constructor ()
      ensures Contents() == EmptyDisk
    {
      height, blocks, states, pendingHeader, pendingData := 0, map[], map[], None, None;
    }
  }
}

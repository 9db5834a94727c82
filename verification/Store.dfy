/** DefaultStore and DefaultBatch (pkg/store/store.go, batch.go) over a key-value database. Header,
    data and state blobs are opaque bytes; `sha` is SHA-256. */
module Store {
  import opened Basics
  import opened Keys

  type Db = map<Key, Bytes>

  /** A batch: the last operation on each key, None for a delete. */
  type Ops = map<Key, Option<Bytes>>

  type Digest = Bytes -> Bytes

  datatype StoreError = BadHeightEntry | AlreadyBelow | Finalized | HeaderMissing(height: nat)

  /** Committing a batch is atomic. */
  function Apply(db: Db, ops: Ops): Db {
    map k | k in db.Keys + ops.Keys && (k in ops ==> ops[k].Some?) :: if k in ops then ops[k].value else db[k]
  }

  lemma OpsAssoc(a: Ops, b: Ops, c: Ops)
    ensures a + b + c == a + (b + c)
    ensures c == map[] ==> a + c == a
  {
  }

  /** The stored chain height: 0 when unset, None when the entry cannot be decoded. */
  function Height(db: Db): Option<nat> {
    if HeightK !in db then Some(0) else DecodeHeight(db[HeightK])
  }

  function SaveOps(sha: Digest, height: nat, header: Bytes, data: Bytes, signature: Bytes): Ops {
    map[HeaderK(height) := Some(header), DataK(height) := Some(data), SignatureK(height) := Some(signature),
        IndexK(sha(header)) := Some(EncodeHeight(height))]
  }

  // ---------------------------------------------------------------- rollback

  function EraseOne(db: Db, sha: Digest, h: nat): Ops
    requires HeaderK(h) in db
  {
    map[HeaderK(h) := None, DataK(h) := None, SignatureK(h) := None, IndexK(sha(db[HeaderK(h)])) := None,
        StateK(h) := None]
  }

  predicate HeadersPresent(db: Db, lo: nat, hi: nat) {
    forall h :: lo < h <= hi ==> HeaderK(h) in db
  }

  /** The deletes for heights `lo`+1..`hi`. */
  function EraseOps(db: Db, sha: Digest, lo: nat, hi: nat): Ops
    requires HeadersPresent(db, lo, hi)
    decreases hi - lo
  {
    if hi <= lo then map[] else EraseOps(db, sha, lo + 1, hi) + EraseOne(db, sha, lo + 1)
  }

  /** A recorded DA-included height; an entry of another length is ignored. */
  function DAIncluded(db: Db): Option<nat> {
    if MetaK(DA_INCLUDED_HEIGHT) in db then DecodeHeight(db[MetaK(DA_INCLUDED_HEIGHT)]) else None
  }

  predicate AboveDA(db: Db, t: nat) {
    DAIncluded(db).Some? && DAIncluded(db).value > t
  }

  function LowerDA(db: Db, t: nat): Ops {
    if AboveDA(db, t) then map[MetaK(DA_INCLUDED_HEIGHT) := Some(EncodeHeight(t))] else map[]
  }

  /** The highest height in `lo`+1..`hi` without a header: where the downward loop stops. */
  function TopMissing(db: Db, lo: nat, hi: nat): (h: nat)
    requires !HeadersPresent(db, lo, hi)
    ensures lo < h <= hi && HeaderK(h) !in db && HeadersPresent(db, h, hi)
    decreases hi
  {
    if HeaderK(hi) !in db then hi else TopMissing(db, lo, hi - 1)
  }

  lemma TopMissingIs(db: Db, lo: nat, hi: nat, h: nat)
    requires lo < h <= hi && HeaderK(h) !in db && HeadersPresent(db, h, hi)
    ensures !HeadersPresent(db, lo, hi) && TopMissing(db, lo, hi) == h
  {
    var m := TopMissing(db, lo, hi);
    if h < m {
      assert false;
    }
    assert m < h ==> HeaderK(h) in db;
  }

  datatype Attempt = Attempt(error: Option<StoreError>, db: Db)

  function Rollback(db: Db, sha: Digest, t: nat, aggregator: bool): Attempt {
    var current := Height(db);
    if current.None? then Attempt(Some(BadHeightEntry), db)
    else if current.value <= t then Attempt(Some(AlreadyBelow), db)
    else if AboveDA(db, t) && aggregator then Attempt(Some(Finalized), db)
    else if !HeadersPresent(db, t, current.value) then
      Attempt(Some(HeaderMissing(TopMissing(db, t, current.value))), db)
    else Attempt(None, Apply(db, LowerDA(db, t) + EraseOps(db, sha, t, current.value) + map[HeightK := Some(EncodeHeight(t))]))
  }

  // ---------------------------------------------------------------- pruning

  function LastPruned(db: Db): nat {
    if MetaK(LAST_PRUNED_BLOCK_HEIGHT) in db && DecodeHeight(db[MetaK(LAST_PRUNED_BLOCK_HEIGHT)]).Some?
    then DecodeHeight(db[MetaK(LAST_PRUNED_BLOCK_HEIGHT)]).value else 0
  }

  function PruneOne(db: Db, sha: Digest, h: nat): Ops {
    if HeaderK(h) !in db then map[]
    else map[HeaderK(h) := None, DataK(h) := None, SignatureK(h) := None,
             MetaK(HeaderDAHeightName(h)) := None, MetaK(DataDAHeightName(h)) := None,
             IndexK(sha(db[HeaderK(h)])) := None]
  }

  function PruneOps(db: Db, sha: Digest, lo: nat, hi: nat): Ops
    decreases hi
  {
    if hi <= lo then map[] else PruneOps(db, sha, lo, hi - 1) + PruneOne(db, sha, hi)
  }

  function PruneBlocks(db: Db, sha: Digest, height: nat): Db {
    if height <= LastPruned(db) then db
    else Apply(db, PruneOps(db, sha, LastPruned(db), height)
                   + map[MetaK(LAST_PRUNED_BLOCK_HEIGHT) := Some(EncodeHeight(height))])
  }

  // ---------------------------------------------------------------- reads

  function GetHeader(db: Db, height: nat): Option<Bytes> {
    if HeaderK(height) in db then Some(db[HeaderK(height)]) else None
  }

  /** Header and data of a block; both have to be there. */
  function GetBlockData(db: Db, height: nat): Option<(Bytes, Bytes)> {
    if HeaderK(height) in db && DataK(height) in db then Some((db[HeaderK(height)], db[DataK(height)])) else None
  }

  function GetBlockByHash(db: Db, hash: Bytes): Option<(Bytes, Bytes)> {
    if IndexK(hash) !in db then None
    else
      var h := DecodeHeight(db[IndexK(hash)]);
      if h.None? then None else GetBlockData(db, h.value)
  }
}

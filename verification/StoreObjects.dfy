/** DefaultStore and DefaultBatch as objects: writes go through a batch and take effect on Commit. */
module StoreObjects {
  import opened Basics
  import opened Keys
  import opened Store
  import S = Store

  /** The single operations of a batch add up to the operations of a height. */
  lemma SaveInto(ops: Ops, sha: Digest, h: nat, header: Bytes, data: Bytes, signature: Bytes)
    ensures ops[HeaderK(h) := Some(header)][DataK(h) := Some(data)][SignatureK(h) := Some(signature)]
              [IndexK(sha(header)) := Some(EncodeHeight(h))]
            == ops + SaveOps(sha, h, header, data, signature)
  {
  }

  lemma EraseInto(ops: Ops, db: Db, sha: Digest, h: nat)
    requires HeaderK(h) in db
    ensures ops[HeaderK(h) := None][DataK(h) := None][SignatureK(h) := None][IndexK(sha(db[HeaderK(h)])) := None]
              [StateK(h) := None]
            == ops + EraseOne(db, sha, h)
  {
  }

  lemma PruneInto(ops: Ops, db: Db, sha: Digest, h: nat)
    requires HeaderK(h) in db
    ensures ops[HeaderK(h) := None][DataK(h) := None][SignatureK(h) := None][MetaK(HeaderDAHeightName(h)) := None]
              [MetaK(DataDAHeightName(h)) := None][IndexK(sha(db[HeaderK(h)])) := None]
            == ops + PruneOne(db, sha, h)
  {
  }

  class DefaultStore {
    const sha: Digest
    var db: Db

    constructor (sha: Digest)
      ensures this.sha == sha && db == map[]
    {
      this.sha, db := sha, map[];
    }

    /** Deletes heights from the current one down to `height`, all in one batch. */
    method Rollback(height: nat, aggregator: bool) returns (err: Option<StoreError>)
      modifies this
      ensures Attempt(err, db) == S.Rollback(old(db), sha, height, aggregator)
    {
      var batch := new DefaultBatch(this);
      var current := Height(db);
      if current.None? {
        return Some(BadHeightEntry);
      }
      if current.value <= height {
        return Some(AlreadyBelow);
      }
      var daIncluded := DAIncluded(db);
      if daIncluded.Some? && daIncluded.value > height {
        if aggregator {
          return Some(Finalized);
        }
        batch.Put(MetaK(DA_INCLUDED_HEIGHT), EncodeHeight(height));
      }
      assert batch.ops == LowerDA(db, height);
      var missing := batch.EraseDown(current.value, height);
      if missing.Some? {
        TopMissingIs(db, height, current.value, missing.value);
        return Some(HeaderMissing(missing.value));
      }
      batch.Put(HeightK, EncodeHeight(height));
      assert batch.ops == LowerDA(db, height) + EraseOps(db, sha, height, current.value) + map[HeightK := Some(EncodeHeight(height))];
      batch.Commit();
      return None;
    }

    /** Deletes the block data of the heights above the last pruned one, up to `height`, in one batch. */
    method PruneBlocks(height: nat)
      modifies this
      ensures db == S.PruneBlocks(old(db), sha, height)
    {
      var batch := new DefaultBatch(this);
      var lastPruned := LastPruned(db);
      if height <= lastPruned {
        return;
      }
      batch.PruneUp(lastPruned, height);
      batch.Put(MetaK(LAST_PRUNED_BLOCK_HEIGHT), EncodeHeight(height));
      assert batch.ops == PruneOps(db, sha, lastPruned, height)
                          + map[MetaK(LAST_PRUNED_BLOCK_HEIGHT) := Some(EncodeHeight(height))];
      batch.Commit();
    }
  }

  class DefaultBatch {
    const store: DefaultStore
    var ops: Ops

    constructor (store: DefaultStore)
      ensures this.store == store && ops == map[]
    {
      this.store, ops := store, map[];
    }

    method Put(key: Key, value: Bytes)
      modifies this
      ensures ops == old(ops)[key := Some(value)]
    {
      ops := ops[key := Some(value)];
    }

    method Delete(key: Key)
      modifies this
      ensures ops == old(ops)[key := None]
    {
      ops := ops[key := None];
    }

    /** Never lowers the height; fails only when the stored height cannot be decoded. */
    method SetHeight(height: nat) returns (ok: bool)
      modifies this
      ensures ok <==> Height(store.db).Some?
      ensures ops == if ok && height > Height(store.db).value then old(ops)[HeightK := Some(EncodeHeight(height))]
                     else old(ops)
    {
      var current := Height(store.db);
      if current.None? {
        return false;
      }
      if height <= current.value {
        return true;
      }
      ops := ops[HeightK := Some(EncodeHeight(height))];
      return true;
    }

    method SaveBlockDataFromBytes(height: nat, headerBlob: Bytes, dataBlob: Bytes, signature: Bytes)
      modifies this
      ensures ops == old(ops) + SaveOps(store.sha, height, headerBlob, dataBlob, signature)
    {
      SaveInto(ops, store.sha, height, headerBlob, dataBlob, signature);
      Put(HeaderK(height), headerBlob);
      Put(DataK(height), dataBlob);
      Put(SignatureK(height), signature);
      Put(IndexK(store.sha(headerBlob)), EncodeHeight(height));
    }

    method UpdateState(height: nat, state: Bytes)
      modifies this
      ensures ops == old(ops)[StateK(height) := Some(state)]
    {
      Put(StateK(height), state);
    }

    /** The loop of Rollback: from `top` down to `bottom`, stopping at a height without header. */
    method EraseDown(top: nat, bottom: nat) returns (missing: Option<nat>)
      requires bottom <= top
      modifies this
      ensures missing.None? ==>
                HeadersPresent(store.db, bottom, top) && ops == old(ops) + EraseOps(store.db, store.sha, bottom, top)
      ensures missing.Some? ==>
                bottom < missing.value <= top && HeaderK(missing.value) !in store.db
                && HeadersPresent(store.db, missing.value, top)
    {
      var currentHeight := top;
      while currentHeight > bottom
        invariant bottom <= currentHeight <= top
        invariant HeadersPresent(store.db, currentHeight, top)
        invariant ops == old(ops) + EraseOps(store.db, store.sha, currentHeight, top)
      {
        if HeaderK(currentHeight) !in store.db {
          return Some(currentHeight);
        }
        OpsAssoc(old(ops), EraseOps(store.db, store.sha, currentHeight, top), EraseOne(store.db, store.sha, currentHeight));
        EraseHeight(currentHeight);
        currentHeight := currentHeight - 1;
      }
      return None;
    }

    method EraseHeight(h: nat)
      requires HeaderK(h) in store.db
      modifies this
      ensures ops == old(ops) + EraseOne(store.db, store.sha, h)
    {
      var headerBlob := store.db[HeaderK(h)];
      EraseInto(ops, store.db, store.sha, h);
      Delete(HeaderK(h));
      Delete(DataK(h));
      Delete(SignatureK(h));
      Delete(IndexK(store.sha(headerBlob)));
      Delete(StateK(h));
    }

    /** The loop of PruneBlocks: heights without a header are skipped. */
    method PruneUp(lastPruned: nat, height: nat)
      requires lastPruned <= height
      modifies this
      ensures ops == old(ops) + PruneOps(store.db, store.sha, lastPruned, height)
    {
      var h := lastPruned + 1;
      while h <= height
        invariant lastPruned + 1 <= h <= height + 1
        invariant ops == old(ops) + PruneOps(store.db, store.sha, lastPruned, h - 1)
      {
        ghost var done := PruneOps(store.db, store.sha, lastPruned, h - 1);
        OpsAssoc(old(ops), done, PruneOne(store.db, store.sha, h));
        OpsAssoc(ops, map[], PruneOne(store.db, store.sha, h));
        if HeaderK(h) in store.db {
          PruneHeight(h);
        }
        h := h + 1;
      }
    }

    method PruneHeight(h: nat)
      requires HeaderK(h) in store.db
      modifies this
      ensures ops == old(ops) + PruneOne(store.db, store.sha, h)
    {
      var headerBlob := store.db[HeaderK(h)];
      PruneInto(ops, store.db, store.sha, h);
      Delete(HeaderK(h));
      Delete(DataK(h));
      Delete(SignatureK(h));
      Delete(MetaK(HeaderDAHeightName(h)));
      Delete(MetaK(DataDAHeightName(h)));
      Delete(IndexK(store.sha(headerBlob)));
    }

    method Commit()
      modifies store
      ensures store.db == Apply(old(store.db), ops)
    {
      store.db := Apply(store.db, ops);
    }
  }
}

/** What rollback and pruning do to the database, and that the hash index stays exactly the map from
    the digest of each stored header to its height. */
module StoreIndex {
  import opened Basics
  import opened Keys
  import opened Store
  import Paths

  ghost predicate CollisionFree(sha: Digest) {
    forall a, b :: sha(a) == sha(b) ==> a == b
  }

  /** A header blob carries its own height, so blobs of different heights differ. */
  type HeightOf = Bytes -> nat

  ghost predicate Placed(db: Db, heightOf: HeightOf) {
    forall h: nat :: HeaderK(h) in db ==> h < U64 && heightOf(db[HeaderK(h)]) == h
  }

  /** `d` is the digest of the header stored at `h`. */
  ghost predicate Indexes(db: Db, sha: Digest, d: Bytes, h: nat) {
    HeaderK(h) in db && sha(db[HeaderK(h)]) == d
  }

  /** The index is exactly the map from each stored header's digest to its height. */
  ghost predicate IndexExact(db: Db, sha: Digest) {
    && (forall h :: HeaderK(h) in db ==>
          IndexK(sha(db[HeaderK(h)])) in db && db[IndexK(sha(db[HeaderK(h)]))] == EncodeHeight(h))
    && (forall d :: IndexK(d) in db ==> exists h :: Indexes(db, sha, d, h))
  }

  ghost predicate Inv(db: Db, sha: Digest, heightOf: HeightOf) {
    Placed(db, heightOf) && IndexExact(db, sha)
  }

  // ---------------------------------------------------------------- rollback

  /** The keys that erasing heights `lo`+1..`hi` deletes. */
  ghost predicate Erased(db: Db, sha: Digest, lo: nat, hi: nat, k: Key) {
    match k
    case HeaderK(h) => lo < h <= hi
    case DataK(h) => lo < h <= hi
    case SignatureK(h) => lo < h <= hi
    case StateK(h) => lo < h <= hi
    case IndexK(d) => exists h: nat :: lo < h <= hi && Indexes(db, sha, d, h)
    case MetaK(_) => false
    case HeightK => false
  }

  lemma {:induction false} EraseOpsMeaning(db: Db, sha: Digest, lo: nat, hi: nat, k: Key)
    requires HeadersPresent(db, lo, hi)
    ensures k in EraseOps(db, sha, lo, hi) <==> Erased(db, sha, lo, hi, k)
    ensures k in EraseOps(db, sha, lo, hi) ==> EraseOps(db, sha, lo, hi)[k].None?
    decreases hi - lo
  {
    if lo < hi {
      EraseOpsMeaning(db, sha, lo + 1, hi, k);
      if k.IndexK? {
        assert k in EraseOne(db, sha, lo + 1) <==> Indexes(db, sha, k.hash, lo + 1);
      }
    }
  }

  /** The database after a successful rollback, key by key. */
  ghost function RolledBack(db: Db, sha: Digest, t: nat, k: Key): Option<Bytes>
    requires Height(db).Some?
  {
    if k == HeightK then Some(EncodeHeight(t))
    else if Erased(db, sha, t, Height(db).value, k) then None
    else if k == MetaK(DA_INCLUDED_HEIGHT) && AboveDA(db, t) then Some(EncodeHeight(t))
    else Lookup(db, k)
  }

  lemma RollbackAt(db: Db, sha: Digest, t: nat, aggregator: bool, k: Key)
    requires Rollback(db, sha, t, aggregator).error.None?
    ensures Lookup(Rollback(db, sha, t, aggregator).db, k) == RolledBack(db, sha, t, k)
  {
    EraseOpsMeaning(db, sha, t, Height(db).value, k);
  }

  /** Everything the store keeps for a height. */
  ghost predicate SameAt(a: Db, b: Db, h: nat) {
    && Lookup(a, HeaderK(h)) == Lookup(b, HeaderK(h)) && Lookup(a, DataK(h)) == Lookup(b, DataK(h))
    && Lookup(a, SignatureK(h)) == Lookup(b, SignatureK(h)) && Lookup(a, StateK(h)) == Lookup(b, StateK(h))
  }

  ghost predicate EmptyAt(db: Db, h: nat) {
    HeaderK(h) !in db && DataK(h) !in db && SignatureK(h) !in db && StateK(h) !in db
  }

  function Lookup(db: Db, k: Key): Option<Bytes> {
    if k in db then Some(db[k]) else None
  }

  /** A successful rollback to `t` erases header, data, signature and state of every height above
      `t` up to the current one, leaves every other height untouched, sets the height to `t` and
      leaves the DA-included height at most `t`. A failed one changes nothing, and it fails exactly
      for an undecodable or too low height, a finalized height on an aggregator, or a missing header. */
  lemma RollbackMeaning(db: Db, sha: Digest, t: nat, aggregator: bool)
    requires t < U64
    ensures
      var r := Rollback(db, sha, t, aggregator);
      && (r.error.Some? ==> r.db == db)
      && (r.error.None? <==>
            && Height(db).Some? && Height(db).value > t
            && !(aggregator && AboveDA(db, t))
            && HeadersPresent(db, t, Height(db).value))
      && (r.error.None? ==>
            && Height(r.db) == Some(t)
            && (forall h: nat :: t < h <= Height(db).value ==> EmptyAt(r.db, h))
            && (forall h: nat :: h <= t || h > Height(db).value ==> SameAt(db, r.db, h))
            && DAIncluded(r.db) == (if AboveDA(db, t) then Some(t) else DAIncluded(db))
            && (forall m :: m != DA_INCLUDED_HEIGHT ==> Lookup(r.db, MetaK(m)) == Lookup(db, MetaK(m))))
  {
    var r := Rollback(db, sha, t, aggregator);
    if r.error.None? {
      forall h: nat ensures if t < h <= Height(db).value then EmptyAt(r.db, h) else SameAt(db, r.db, h) {
        RollbackAtHeight(db, sha, t, aggregator, h);
      }
      forall m ensures Lookup(r.db, MetaK(m)) == RolledBack(db, sha, t, MetaK(m)) {
        RollbackAt(db, sha, t, aggregator, MetaK(m));
      }
      HeightRoundTrip(t, []);
      RollbackAt(db, sha, t, aggregator, HeightK);
      assert Lookup(r.db, MetaK(DA_INCLUDED_HEIGHT)) == RolledBack(db, sha, t, MetaK(DA_INCLUDED_HEIGHT));
    }
  }

  lemma RollbackAtHeight(db: Db, sha: Digest, t: nat, aggregator: bool, h: nat)
    requires Rollback(db, sha, t, aggregator).error.None?
    ensures
      var after := Rollback(db, sha, t, aggregator).db;
      if t < h <= Height(db).value then EmptyAt(after, h) else SameAt(db, after, h)
  {
    RollbackAt(db, sha, t, aggregator, HeaderK(h));
    RollbackAt(db, sha, t, aggregator, DataK(h));
    RollbackAt(db, sha, t, aggregator, SignatureK(h));
    RollbackAt(db, sha, t, aggregator, StateK(h));
  }

  lemma RollbackKeepsIndex(db: Db, sha: Digest, heightOf: HeightOf, t: nat, aggregator: bool)
    requires Inv(db, sha, heightOf)
    ensures Inv(Rollback(db, sha, t, aggregator).db, sha, heightOf)
  {
    var r := Rollback(db, sha, t, aggregator);
    if r.error.None? {
      var top := Height(db).value;
      forall h: nat ensures Lookup(r.db, HeaderK(h)) == if t < h <= top then None else Lookup(db, HeaderK(h)) {
        RollbackAt(db, sha, t, aggregator, HeaderK(h));
      }
      forall d
        ensures Lookup(r.db, IndexK(d)) ==
                if exists h: nat :: t < h <= top && Indexes(db, sha, d, h) then None else Lookup(db, IndexK(d))
      {
        RollbackAt(db, sha, t, aggregator, IndexK(d));
      }
      ErasureKeepsIndex(db, r.db, sha, heightOf, t, top);
    }
  }

  /** Removing headers together with exactly their index entries keeps the index exact. */
  lemma ErasureKeepsIndex(db: Db, after: Db, sha: Digest, heightOf: HeightOf, lo: nat, hi: nat)
    requires Inv(db, sha, heightOf)
    requires forall h: nat :: Lookup(after, HeaderK(h)) == if lo < h <= hi then None else Lookup(db, HeaderK(h))
    requires forall d :: Lookup(after, IndexK(d)) ==
               if exists h: nat :: lo < h <= hi && Indexes(db, sha, d, h) then None else Lookup(db, IndexK(d))
    ensures Inv(after, sha, heightOf)
  {
    forall h: nat | HeaderK(h) in after
      ensures h < U64 && heightOf(after[HeaderK(h)]) == h
      ensures IndexK(sha(after[HeaderK(h)])) in after && after[IndexK(sha(after[HeaderK(h)]))] == EncodeHeight(h)
    {
      assert Lookup(after, HeaderK(h)) == Lookup(db, HeaderK(h));
      var d := sha(db[HeaderK(h)]);
      assert IndexK(d) in db && db[IndexK(d)] == EncodeHeight(h);
      forall g: nat | lo < g <= hi && Indexes(db, sha, d, g) ensures false {
        EncodeHeightInjective(g, h);
      }
      assert Lookup(after, IndexK(d)) == Lookup(db, IndexK(d));
    }
    forall d | IndexK(d) in after ensures exists h :: Indexes(after, sha, d, h) {
      assert Lookup(after, IndexK(d)) == Lookup(db, IndexK(d));
      var h :| Indexes(db, sha, d, h);
      assert Lookup(after, HeaderK(h)) == Lookup(db, HeaderK(h));
      assert Indexes(after, sha, d, h);
    }
  }

  // ---------------------------------------------------------------- pruning

  ghost predicate Pruned(db: Db, sha: Digest, lo: nat, hi: nat, k: Key) {
    match k
    case HeaderK(h) => lo < h <= hi && HeaderK(h) in db
    case DataK(h) => lo < h <= hi && HeaderK(h) in db
    case SignatureK(h) => lo < h <= hi && HeaderK(h) in db
    case IndexK(d) => exists h: nat :: lo < h <= hi && Indexes(db, sha, d, h)
    case MetaK(m) => exists h: nat :: lo < h <= hi && HeaderK(h) in db && PerHeightName(m, h)
    case StateK(_) => false
    case HeightK => false
  }

  ghost predicate PerHeightName(m: string, h: nat) {
    m == HeaderDAHeightName(h) || m == DataDAHeightName(h)
  }

  lemma {:induction false} PruneOpsMeaning(db: Db, sha: Digest, lo: nat, hi: nat, k: Key)
    ensures k in PruneOps(db, sha, lo, hi) <==> Pruned(db, sha, lo, hi, k)
    ensures k in PruneOps(db, sha, lo, hi) ==> PruneOps(db, sha, lo, hi)[k].None?
    decreases hi
  {
    if lo < hi {
      PruneOpsMeaning(db, sha, lo, hi - 1, k);
      PruneOneMeaning(db, sha, hi, k);
    }
  }

  lemma PruneOneMeaning(db: Db, sha: Digest, h: nat, k: Key)
    ensures k in PruneOne(db, sha, h) <==>
      HeaderK(h) in db &&
      match k
      case HeaderK(g) => g == h
      case DataK(g) => g == h
      case SignatureK(g) => g == h
      case IndexK(d) => Indexes(db, sha, d, h)
      case MetaK(m) => PerHeightName(m, h)
      case _ => false
  {
  }

  /** The names of per-height DA entries are longer than the fixed metadata names. */
  lemma PerHeightNamesAreOthers(m: string, h: nat)
    requires PerHeightName(m, h)
    ensures m != DA_INCLUDED_HEIGHT && m != LAST_PRUNED_BLOCK_HEIGHT
  {
    assert m[0] == 'r';
  }

  ghost function AfterPrune(db: Db, sha: Digest, height: nat, k: Key): Option<Bytes> {
    if k == MetaK(LAST_PRUNED_BLOCK_HEIGHT) then Some(EncodeHeight(height))
    else if Pruned(db, sha, LastPruned(db), height, k) then None
    else Lookup(db, k)
  }

  lemma PruneAt(db: Db, sha: Digest, height: nat, k: Key)
    requires height > LastPruned(db)
    ensures Lookup(PruneBlocks(db, sha, height), k) == AfterPrune(db, sha, height, k)
  {
    PruneOpsMeaning(db, sha, LastPruned(db), height, k);
  }

  /** Pruning removes header, data and signature of exactly the stored heights above the last pruned
      one and up to `height`; chain height, states and every other height stay as they were (`PrunedAt`). */
  lemma PruneMeaning(db: Db, sha: Digest, height: nat)
    requires height < U64
    ensures
      var after := PruneBlocks(db, sha, height);
      && LastPruned(after) == Max(LastPruned(db), height)
      && Height(after) == Height(db) && DAIncluded(after) == DAIncluded(db)
      && (forall h: nat :: PrunedAt(db, after, LastPruned(db), height, h))
  {
    if height > LastPruned(db) {
      PruneMetadata(db, sha, height);
      forall h: nat
        ensures PrunedAt(db, PruneBlocks(db, sha, height), LastPruned(db), height, h)
      {
        PruneAtHeight(db, sha, height, h);
      }
    }
  }

  /** Height `h` after the stored heights `lo`+1..`hi` were pruned. */
  ghost predicate PrunedAt(db: Db, after: Db, lo: nat, hi: nat, h: nat) {
    && Lookup(after, StateK(h)) == Lookup(db, StateK(h))
    && (if lo < h <= hi && HeaderK(h) in db
        then HeaderK(h) !in after && DataK(h) !in after && SignatureK(h) !in after
        else SameAt(db, after, h))
  }

  lemma PruneAtHeight(db: Db, sha: Digest, height: nat, h: nat)
    requires height > LastPruned(db)
    ensures PrunedAt(db, PruneBlocks(db, sha, height), LastPruned(db), height, h)
  {
    PruneAt(db, sha, height, HeaderK(h));
    PruneAt(db, sha, height, DataK(h));
    PruneAt(db, sha, height, SignatureK(h));
    PruneAt(db, sha, height, StateK(h));
  }

  lemma PruneMetadata(db: Db, sha: Digest, height: nat)
    requires LastPruned(db) < height < U64
    ensures
      var after := PruneBlocks(db, sha, height);
      LastPruned(after) == height && Height(after) == Height(db) && DAIncluded(after) == DAIncluded(db)
  {
    HeightRoundTrip(height, []);
    PruneAt(db, sha, height, MetaK(LAST_PRUNED_BLOCK_HEIGHT));
    PruneAt(db, sha, height, HeightK);
    PruneAt(db, sha, height, MetaK(DA_INCLUDED_HEIGHT));
    forall h: nat ensures !PerHeightName(DA_INCLUDED_HEIGHT, h) {
      if PerHeightName(DA_INCLUDED_HEIGHT, h) {
        PerHeightNamesAreOthers(DA_INCLUDED_HEIGHT, h);
      }
    }
  }

  lemma PruneKeepsIndex(db: Db, sha: Digest, heightOf: HeightOf, height: nat)
    requires Inv(db, sha, heightOf)
    ensures Inv(PruneBlocks(db, sha, height), sha, heightOf)
  {
    if height > LastPruned(db) {
      var after := PruneBlocks(db, sha, height);
      forall k ensures Lookup(after, k) == AfterPrune(db, sha, height, k) {
        PruneAt(db, sha, height, k);
      }
      ErasureKeepsIndex(db, after, sha, heightOf, LastPruned(db), height);
    }
  }

  // ---------------------------------------------------------------- saving

  /** Saving a block keeps the index exact exactly when no different header was stored at its
      height: overwriting one leaves the old digest pointing at the height. */
  lemma SaveKeepsIndexIff(db: Db, sha: Digest, heightOf: HeightOf, height: nat, header: Bytes, data: Bytes, sig: Bytes)
    requires Inv(db, sha, heightOf) && CollisionFree(sha) && height < U64 && heightOf(header) == height
    ensures
      var after := Apply(db, SaveOps(sha, height, header, data, sig));
      Inv(after, sha, heightOf) <==> HeaderK(height) !in db || db[HeaderK(height)] == header
  {
    var after := Apply(db, SaveOps(sha, height, header, data, sig));
    if HeaderK(height) in db && db[HeaderK(height)] != header {
      var d := sha(db[HeaderK(height)]);
      assert IndexK(d) in after && after[IndexK(d)] == EncodeHeight(height);
      assert forall h :: !Indexes(after, sha, d, h);
    } else {
      SaveFreshKeepsIndex(db, sha, heightOf, height, header, after);
    }
  }

  lemma SaveFreshKeepsIndex(db: Db, sha: Digest, heightOf: HeightOf, height: nat, header: Bytes, after: Db)
    requires Inv(db, sha, heightOf) && CollisionFree(sha) && height < U64 && heightOf(header) == height
    requires HeaderK(height) !in db || db[HeaderK(height)] == header
    requires forall h: nat :: Lookup(after, HeaderK(h)) == if h == height then Some(header) else Lookup(db, HeaderK(h))
    requires forall d :: Lookup(after, IndexK(d)) == if d == sha(header) then Some(EncodeHeight(height)) else Lookup(db, IndexK(d))
    ensures Inv(after, sha, heightOf)
  {
    forall h: nat | HeaderK(h) in after
      ensures h < U64 && heightOf(after[HeaderK(h)]) == h
      ensures IndexK(sha(after[HeaderK(h)])) in after && after[IndexK(sha(after[HeaderK(h)]))] == EncodeHeight(h)
    {
      assert Lookup(after, HeaderK(h)) == if h == height then Some(header) else Lookup(db, HeaderK(h));
      var d := sha(after[HeaderK(h)]);
      assert Lookup(after, IndexK(d)) == if d == sha(header) then Some(EncodeHeight(height)) else Lookup(db, IndexK(d));
      if h != height {
        assert after[HeaderK(h)] != header;
      }
    }
    forall d | IndexK(d) in after ensures exists h :: Indexes(after, sha, d, h) {
      assert Lookup(after, IndexK(d)) == if d == sha(header) then Some(EncodeHeight(height)) else Lookup(db, IndexK(d));
      assert Lookup(after, HeaderK(height)) == Some(header);
      if d == sha(header) {
        assert Indexes(after, sha, d, height);
      } else {
        var h :| Indexes(db, sha, d, h);
        assert Lookup(after, HeaderK(h)) == if h == height then Some(header) else Lookup(db, HeaderK(h));
        assert Indexes(after, sha, d, h);
      }
    }
  }

  // ---------------------------------------------------------------- runs

  /** Metadata is written under plain names only, as the node does; Entries says what another name
      would reach. */
  datatype Op =
    | Save(height: nat, header: Bytes, data: Bytes, signature: Bytes)
    | UpdateState(height: nat, state: Bytes)
    | SetHeight(height: nat)
    | SetMetadata(name: Paths.MetadataName, value: Bytes)
    | DeleteMetadata(name: Paths.MetadataName)
    | DeleteState(height: nat)
    | RollbackTo(t: nat, aggregator: bool)
    | PruneTo(height: nat)

  function Do(db: Db, sha: Digest, op: Op): Db {
    match op
    case Save(h, header, data, sig) => Apply(db, SaveOps(sha, h, header, data, sig))
    case UpdateState(h, s) => db[StateK(h) := s]
    case SetHeight(h) => if Height(db).Some? && h > Height(db).value then db[HeightK := EncodeHeight(h)] else db
    case SetMetadata(m, v) => db[MetaK(m) := v]
    case DeleteMetadata(m) => db - {MetaK(m)}
    case DeleteState(h) => db - {StateK(h)}
    case RollbackTo(t, agg) => Rollback(db, sha, t, agg).db
    case PruneTo(h) => PruneBlocks(db, sha, h)
  }

  /** What is saved is what is read: the parts of the block under its height and by the hash of its
      header. State and height stay as they are, and so does every other height. */
  lemma SaveReadsBack(db: Db, sha: Digest, h: nat, header: Bytes, data: Bytes, signature: Bytes, g: nat)
    requires h < U64
    ensures
      var after := Do(db, sha, Save(h, header, data, signature));
      && GetHeader(after, h) == Some(header) && GetBlockData(after, h) == Some((header, data))
      && Lookup(after, SignatureK(h)) == Some(signature) && GetBlockByHash(after, sha(header)) == Some((header, data))
      && Lookup(after, StateK(h)) == Lookup(db, StateK(h)) && Height(after) == Height(db)
      && (g != h ==> SameAt(db, after, g))
  {
    HeightRoundTrip(h, []);
  }

  /** State and height read back too; the height only rises. */
  lemma StateReadsBack(db: Db, sha: Digest, h: nat, state: Bytes)
    requires h < U64 && Height(db).Some?
    ensures Lookup(Do(db, sha, UpdateState(h, state)), StateK(h)) == Some(state)
    ensures Height(Do(db, sha, SetHeight(h))) == Some(Max(Height(db).value, h))
  {
    HeightRoundTrip(h, []);
  }

  /** The one condition on a run: no block is saved over a different header. */
  ghost predicate Allowed(db: Db, heightOf: HeightOf, op: Op) {
    op.Save? ==>
      && op.height < U64 && heightOf(op.header) == op.height
      && (HeaderK(op.height) !in db || db[HeaderK(op.height)] == op.header)
  }

  ghost predicate AllowedRun(db: Db, sha: Digest, heightOf: HeightOf, ops: seq<Op>)
    decreases ops
  {
    ops == [] || (Allowed(db, heightOf, ops[0]) && AllowedRun(Do(db, sha, ops[0]), sha, heightOf, ops[1..]))
  }

  function Run(db: Db, sha: Digest, ops: seq<Op>): Db
    decreases ops
  {
    if ops == [] then db else Run(Do(db, sha, ops[0]), sha, ops[1..])
  }

  lemma StepKeepsIndex(db: Db, sha: Digest, heightOf: HeightOf, op: Op)
    requires Inv(db, sha, heightOf) && CollisionFree(sha) && Allowed(db, heightOf, op)
    ensures Inv(Do(db, sha, op), sha, heightOf)
  {
    match op
    case Save(h, header, data, sig) => SaveKeepsIndexIff(db, sha, heightOf, h, header, data, sig);
    case RollbackTo(t, agg) => RollbackKeepsIndex(db, sha, heightOf, t, agg);
    case PruneTo(h) => PruneKeepsIndex(db, sha, heightOf, h);
    case _ => OtherWriteKeepsIndex(db, Do(db, sha, op), sha, heightOf);
  }

  lemma OtherWriteKeepsIndex(db: Db, after: Db, sha: Digest, heightOf: HeightOf)
    requires Inv(db, sha, heightOf)
    requires forall k: Key :: k.HeaderK? || k.IndexK? ==> Lookup(after, k) == Lookup(db, k)
    ensures Inv(after, sha, heightOf)
  {
    ErasureKeepsIndex(db, after, sha, heightOf, 0, 0);
  }

  /** Under every run of saves, state, height and metadata writes, rollbacks and prunes, the index
      is exactly the map from each stored header's digest to its height. */
  lemma {:induction false} HashIndexStaysExact(db: Db, sha: Digest, heightOf: HeightOf, ops: seq<Op>)
    requires Inv(db, sha, heightOf) && CollisionFree(sha) && AllowedRun(db, sha, heightOf, ops)
    ensures Inv(Run(db, sha, ops), sha, heightOf)
    decreases ops
  {
    if ops != [] {
      StepKeepsIndex(db, sha, heightOf, ops[0]);
      HashIndexStaysExact(Do(db, sha, ops[0]), sha, heightOf, ops[1..]);
    }
  }

  /** A lookup by hash finds exactly the stored block whose header has that digest. */
  lemma BlockByHash(db: Db, sha: Digest, heightOf: HeightOf, d: Bytes)
    requires Inv(db, sha, heightOf)
    ensures GetBlockByHash(db, d).Some? <==> exists h :: Indexes(db, sha, d, h) && DataK(h) in db
    ensures forall h: nat :: Indexes(db, sha, d, h) ==> GetBlockByHash(db, d) == GetBlockData(db, h)
    ensures GetBlockByHash(db, d).Some? ==> sha(GetBlockByHash(db, d).value.0) == d
  {
    forall h: nat | Indexes(db, sha, d, h) ensures GetBlockByHash(db, d) == GetBlockData(db, h) {
      HeightRoundTrip(h, []);
    }
  }
}

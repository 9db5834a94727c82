/** The database holds strings; the store model holds structured keys. As long as keys are plain the
    two agree, operation by operation; a metadata name that is not plain reaches another key's entry. */
module Entries {
  import opened Basics
  import opened Keys
  import opened Store
  import opened Paths

  type Raw = map<string, Bytes>

  /** `raw` is what the database holds when the store holds `db`. */
  ghost predicate Represents(raw: Raw, db: Db) {
    NamedBy(Entry, PlainKey, raw, db)
  }

  /** Every key of `db` is plain, and `raw` holds exactly its values under their entries. */
  ghost predicate NamedBy(entry: Key -> string, plain: Key -> bool, raw: Raw, db: Db) {
    && (forall k :: k in db ==> plain(k) && entry(k) in raw && raw[entry(k)] == db[k])
    && (forall s :: s in raw ==> exists k :: k in db && entry(k) == s)
  }

  function RawWrite(raw: Raw, k: Key, value: Option<Bytes>): Raw {
    if value.Some? then raw[Entry(k) := value.value] else raw - {Entry(k)}
  }

  function Write(db: Db, k: Key, value: Option<Bytes>): Db {
    if value.Some? then db[k := value.value] else db - {k}
  }

  function RawRead(raw: Raw, k: Key): Option<Bytes> {
    if Entry(k) in raw then Some(raw[Entry(k)]) else None
  }

  function Read(db: Db, k: Key): Option<Bytes> {
    if k in db then Some(db[k]) else None
  }

  /** Reading a plain key from the database is reading it from the store. */
  lemma PlainReadsAgree(raw: Raw, db: Db, k: Key)
    requires Represents(raw, db) && PlainKey(k)
    ensures RawRead(raw, k) == Read(db, k)
  {
    if Entry(k) in raw {
      var j :| j in db && Entry(j) == Entry(k);
      PlainKeysAreApart(j, k);
    }
  }

  /** So is putting or deleting one. */
  lemma PlainWritesAgree(raw: Raw, db: Db, k: Key, value: Option<Bytes>)
    requires Represents(raw, db) && PlainKey(k)
    ensures Represents(RawWrite(raw, k, value), Write(db, k, value))
  {
    forall j | j in db && Entry(j) == Entry(k) ensures j == k {
      PlainKeysAreApart(j, k);
    }
    WritesAgree(Entry, PlainKey, raw, db, k, value);
  }

  /** The same for any way of naming entries that keeps `k` apart from the other keys. */
  lemma WritesAgree(entry: Key -> string, plain: Key -> bool, raw: Raw, db: Db, k: Key, value: Option<Bytes>)
    requires NamedBy(entry, plain, raw, db) && plain(k)
    requires forall j :: j in db && entry(j) == entry(k) ==> j == k
    ensures NamedBy(entry, plain, if value.Some? then raw[entry(k) := value.value] else raw - {entry(k)},
                    Write(db, k, value))
  {
    var raw' := if value.Some? then raw[entry(k) := value.value] else raw - {entry(k)};
    var db' := Write(db, k, value);
    forall s | s in raw' ensures exists j :: j in db' && entry(j) == s {
      if s != entry(k) {
        var j :| j in db && entry(j) == s;
        assert j in db';
      } else {
        assert k in db';
      }
    }
  }

  /** A key, plain or not, acts on whichever plain key has the entry it reaches. */
  lemma ActsOnEntry(raw: Raw, db: Db, k: Key, j: Key, value: Option<Bytes>)
    requires Represents(raw, db) && PlainKey(j) && Entry(k) == Entry(j)
    ensures RawRead(raw, k) == Read(db, j)
    ensures Represents(RawWrite(raw, k, value), Write(db, j, value))
  {
    PlainReadsAgree(raw, db, j);
    PlainWritesAgree(raw, db, j, value);
  }

  /** No key of the store has this entry. */
  ghost predicate NoKeyAt(entry: string) {
    forall j :: PlainKey(j) ==> Entry(j) != entry
  }

  /** Writing metadata under the name does not change what any other key reads. */
  ghost predicate LeavesOthersAlone(raw: Raw, name: string, value: Bytes) {
    forall j :: PlainKey(j) && j != MetaK(name) ==> RawRead(RawWrite(raw, MetaK(name), Some(value)), j) == RawRead(raw, j)
  }

  /** Writing metadata leaves the other keys alone, in every database, if and only if the name is plain
      or reaches no key's entry: any other name overwrites the key it reaches. */
  lemma MetadataLeavesOthersIff(name: string)
    ensures (forall raw, value :: LeavesOthersAlone(raw, name, value)) <==>
            PlainName(name) || NoKeyAt(Entry(MetaK(name)))
  {
    MetadataOwnEntryIff(name);
    OwnEntryIff(MetaK(name));
    if PlainName(name) {
      forall j | PlainKey(j) && Entry(j) == Entry(MetaK(name)) ensures j == MetaK(name) {
        PlainKeysAreApart(j, MetaK(name));
      }
    } else if !NoKeyAt(Entry(MetaK(name))) {
      var j :| PlainKey(j) && Entry(j) == Entry(MetaK(name));
      assert RawRead(RawWrite(map[], MetaK(name), Some([])), j) != RawRead(map[], j);
      assert !LeavesOthersAlone(map[], name, []);
    }
  }

  /** Writing metadata is what the store model says it is if and only if the name is plain. */
  lemma MetadataWriteIff(raw: Raw, db: Db, name: string, value: Bytes)
    requires Represents(raw, db)
    ensures Represents(RawWrite(raw, MetaK(name), Some(value)), Write(db, MetaK(name), Some(value))) <==> PlainName(name)
  {
    MetadataOwnEntryIff(name);
    OwnEntryIff(MetaK(name));
    if PlainName(name) {
      ActsOnEntry(raw, db, MetaK(name), MetaK(name), Some(value));
    }
  }

  /** The name "../h/5" reads the header of height 5, and writing to it would replace that header. */
  lemma NameActsOnHeader(raw: Raw, db: Db, h: nat, value: Bytes)
    requires Represents(raw, db)
    ensures
      var k := MetaK("../h/" + Decimal(h));
      && RawRead(raw, k) == Read(db, HeaderK(h))
      && Represents(RawWrite(raw, k, Some(value)), Write(db, HeaderK(h), Some(value)))
  {
    NameReachesHeader(h);
    StoreKeysArePlain(HeaderK(h));
    ActsOnEntry(raw, db, MetaK("../h/" + Decimal(h)), HeaderK(h), Some(value));
  }
}

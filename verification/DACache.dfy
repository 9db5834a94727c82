/** The DA-inclusion cache (block/internal/cache/generic_cache.go): which DA height included the block
    of each height, kept through content hashes, saved as a snapshot and restored through placeholder
    keys. */
module DACache {
  import opened Basics
  import opened Keys
  import opened Lru

  datatype Cache = Cache(daIncluded: map<string, nat>, hashByHeight: map<nat, string>, maxDA: nat)

  const FRESH := Cache(map[], map[], 0)

  /** What one insertion into each of the two LRU caches evicts. */
  datatype Policies = Policies(hashes: Policy<string>, heights: Policy<nat>)

  /** Both caches hold up to `capacity` entries. */
  predicate Sized(p: Policies, capacity: nat) {
    p.hashes.capacity == p.heights.capacity == capacity
  }

  function ByHeight(c: Cache, h: nat): Option<nat> {
    if h in c.hashByHeight && c.hashByHeight[h] in c.daIncluded then Some(c.daIncluded[c.hashByHeight[h]]) else None
  }

  /** The inclusion entries without a different hash recorded for `h` before. */
  function Forget(c: Cache, h: nat, hash: string): map<string, nat> {
    if h in c.hashByHeight && c.hashByHeight[h] != hash then c.daIncluded - {c.hashByHeight[h]} else c.daIncluded
  }

  function SetDAIncluded(c: Cache, p: Policies, hash: string, da: nat, h: nat): Cache {
    Cache(Add(Forget(c, h, hash), p.hashes, hash, da), Add(c.hashByHeight, p.heights, h, hash), Max(c.maxDA, da))
  }

  /** The index entry moves to the hash seen; the inclusion entries stay. */
  function SetSeen(c: Cache, p: Policy<nat>, hash: string, h: nat): Cache {
    c.(hashByHeight := Add(c.hashByHeight, p, h, hash))
  }

  function Included(c: Cache, hash: string): Option<nat> {
    if hash in c.daIncluded then Some(c.daIncluded[hash]) else None
  }

  function DeleteAllForHeight(c: Cache, h: nat): Cache {
    if h in c.hashByHeight then c.(daIncluded := c.daIncluded - {c.hashByHeight[h]}, hashByHeight := c.hashByHeight - {h})
    else c
  }

  // ---------------------------------------------------------------- placeholder keys

  const LOWER_HEX := "0123456789abcdef"

  function HexDigits(h: nat, n: nat): (s: string)
    ensures |s| == n
  {
    if n == 0 then [] else HexDigits(h / 16, n - 1) + [LOWER_HEX[h % 16]]
  }

  function Placeholder(prefix: string, h: nat): string {
    prefix + "__h/" + HexDigits(h, 16)
  }

  function Pow16(n: nat): nat {
    if n == 0 then 1 else 16 * Pow16(n - 1)
  }

  lemma SixteenDigits()
    ensures Pow16(16) == U64
  {
    assert Pow16(4) == 0x1_0000;
    assert Pow16(8) == 0x1_0000_0000;
    assert Pow16(12) == 0x1_0000_0000_0000;
  }

  lemma {:induction false} HexDigitsInjective(a: nat, b: nat, n: nat)
    requires a < Pow16(n) && b < Pow16(n) && HexDigits(a, n) == HexDigits(b, n)
    ensures a == b
  {
    if n > 0 {
      var s, t := HexDigits(a, n), HexDigits(b, n);
      assert s[n - 1] == LOWER_HEX[a % 16] && t[n - 1] == LOWER_HEX[b % 16];
      assert s[..n - 1] == HexDigits(a / 16, n - 1) && t[..n - 1] == HexDigits(b / 16, n - 1);
      LowerHexDistinct(a % 16, b % 16);
      HexDigitsInjective(a / 16, b / 16, n - 1);
    }
  }

  lemma LowerHexDistinct(a: nat, b: nat)
    requires a < 16 && b < 16 && LOWER_HEX[a] == LOWER_HEX[b]
    ensures a == b
  {
  }

  /** Placeholders of different heights differ, and none is a hash written in hexadecimal. */
  lemma PlaceholderInjective(prefix: string, a: nat, b: nat, hash: Bytes)
    requires a < U64 && b < U64
    ensures Placeholder(prefix, a) == Placeholder(prefix, b) ==> a == b
    ensures Placeholder(prefix, a) != Hex(hash)
  {
    SixteenDigits();
    if Placeholder(prefix, a) == Placeholder(prefix, b) {
      var n := |prefix| + 4;
      assert Placeholder(prefix, a)[n..] == HexDigits(a, 16) && Placeholder(prefix, b)[n..] == HexDigits(b, 16);
      HexDigitsInjective(a, b, 16);
    }
    assert Placeholder(prefix, a)[|prefix|] == '_';
    if Placeholder(prefix, a) == Hex(hash) {
      HexHasNoUnderscore(hash, |prefix|);
    }
  }

  lemma {:induction false} HexHasNoUnderscore(b: Bytes, i: nat)
    requires i < |Hex(b)|
    ensures Hex(b)[i] != '_'
    decreases b
  {
    if i >= 2 {
      HexHasNoUnderscore(b[1..], i - 2);
    }
  }

  // ---------------------------------------------------------------- snapshot codec

  datatype Entry = Entry(blockHeight: nat, daHeight: nat)

  predicate Fits(e: Entry) {
    e.blockHeight < U64 && e.daHeight < U64
  }

  function EncodeEntry(e: Entry): (b: Bytes)
    ensures |b| == 16
  {
    EncodeHeight(e.blockHeight) + EncodeHeight(e.daHeight)
  }

  function Encode(entries: seq<Entry>): (b: Bytes)
    ensures |b| == 16 * |entries|
  {
    if entries == [] then []
    else Encode(entries[..|entries| - 1]) + EncodeEntry(entries[|entries| - 1])
  }

  function DecodeAt(buf: Bytes, off: nat): Entry
    requires off + 16 <= |buf|
  {
    Entry(LittleEndianValue(buf[off..off + 8]), LittleEndianValue(buf[off + 8..off + 16]))
  }

  /** Nothing for a buffer that is not a whole number of entries. */
  function Decode(buf: Bytes): (entries: seq<Entry>)
    ensures |entries| == if |buf| % 16 == 0 then |buf| / 16 else 0
  {
    if |buf| % 16 != 0 then [] else seq(|buf| / 16, i requires 0 <= i < |buf| / 16 => DecodeAt(buf, 16 * i))
  }

  lemma {:induction false} EncodeAt(entries: seq<Entry>, i: nat)
    requires i < |entries|
    ensures Encode(entries)[16 * i..16 * i + 16] == EncodeEntry(entries[i])
    decreases |entries|
  {
    var n := |entries| - 1;
    if i < n {
      EncodeAt(entries[..n], i);
      assert Encode(entries)[16 * i..16 * i + 16] == Encode(entries[..n])[16 * i..16 * i + 16];
    }
  }

  lemma SnapshotRoundTrip(entries: seq<Entry>)
    requires forall e :: e in entries ==> Fits(e)
    ensures Decode(Encode(entries)) == entries
  {
    var buf := Encode(entries);
    forall i | 0 <= i < |entries| ensures Decode(buf)[i] == entries[i] {
      EncodeAt(entries, i);
      var e := entries[i];
      assert Fits(e);
      assert buf[16 * i..16 * i + 8] == buf[16 * i..16 * i + 16][..8] == EncodeHeight(e.blockHeight);
      assert buf[16 * i + 8..16 * i + 16] == buf[16 * i..16 * i + 16][8..] == EncodeHeight(e.daHeight);
      HeightRoundTrip(e.blockHeight, []);
      HeightRoundTrip(e.daHeight, []);
    }
  }

  // ---------------------------------------------------------------- the cache as a plain map

  /** The cache answers every height as the map from heights to DA heights does. */
  ghost predicate Refines(c: Cache, m: map<nat, nat>) {
    forall h: nat :: ByHeight(c, h) == if h in m then Some(m[h]) else None
  }

  /** Which height a hash or placeholder stands for. */
  type Owner = string -> nat

  /** A height is recorded with a key of its own, and no inclusion entry is out of reach. */
  ghost predicate Owned(c: Cache, owner: Owner) {
    && (forall h: nat :: h in c.hashByHeight ==> owner(c.hashByHeight[h]) == h)
    && (forall k :: k in c.daIncluded ==>
          owner(k) in c.hashByHeight && c.hashByHeight[owner(k)] == k && c.daIncluded[k] <= c.maxDA)
  }

  ghost predicate Inv(c: Cache, capacity: nat, owner: Owner) {
    Owned(c, owner) && |c.hashByHeight| <= capacity
  }

  predicate Room(c: Cache, capacity: nat, h: nat) {
    h in c.hashByHeight || |c.hashByHeight| < capacity
  }

  lemma {:induction false} Injection(a: set<string>, b: set<nat>, owner: Owner)
    requires forall k :: k in a ==> owner(k) in b
    requires forall k, l :: k in a && l in a && owner(k) == owner(l) ==> k == l
    ensures |a| <= |b|
    decreases a
  {
    if a != {} {
      var k :| k in a;
      Injection(a - {k}, b - {owner(k)}, owner);
    }
  }

  /** What recording a height amounts to when nothing is evicted. */
  function Recorded(c: Cache, hash: string, da: nat, h: nat): Cache {
    Cache(Forget(c, h, hash)[hash := da], c.hashByHeight[h := hash], Max(c.maxDA, da))
  }

  lemma KeptHasRoom(c: Cache, capacity: nat, owner: Owner, hash: string, h: nat)
    requires Inv(c, capacity, owner) && Room(c, capacity, h) && owner(hash) == h
    ensures hash in Forget(c, h, hash) || |Forget(c, h, hash)| < capacity
  {
    var kept := Forget(c, h, hash);
    if hash !in kept {
      forall k | k in kept ensures owner(k) in c.hashByHeight.Keys - {h} {
        assert c.hashByHeight[owner(k)] == k;
      }
      Injection(kept.Keys, c.hashByHeight.Keys - {h}, owner);
      assert h !in c.hashByHeight ==> c.hashByHeight.Keys - {h} == c.hashByHeight.Keys;
    }
  }

  /** With room left, neither LRU cache evicts anything when a height is recorded. */
  lemma NothingEvicted(c: Cache, p: Policies, capacity: nat, owner: Owner, hash: string, da: nat, h: nat)
    requires Sized(p, capacity) && Inv(c, capacity, owner) && Room(c, capacity, h) && owner(hash) == h
    ensures SetDAIncluded(c, p, hash, da, h) == Recorded(c, hash, da, h)
    ensures |Recorded(c, hash, da, h).hashByHeight| <= capacity
  {
    KeptHasRoom(c, capacity, owner, hash, h);
    assert c.hashByHeight[h := hash].Keys == c.hashByHeight.Keys + {h};
  }

  lemma IncludeRefines(
    c: Cache, p: Policies, capacity: nat, owner: Owner, m: map<nat, nat>, hash: string, da: nat, h: nat)
    requires Sized(p, capacity) && Inv(c, capacity, owner) && Room(c, capacity, h) && owner(hash) == h && Refines(c, m)
    ensures Refines(SetDAIncluded(c, p, hash, da, h), m[h := da])
    ensures Inv(SetDAIncluded(c, p, hash, da, h), capacity, owner)
  {
    NothingEvicted(c, p, capacity, owner, hash, da, h);
    RecordedOwned(c, owner, hash, da, h);
    forall g: nat ensures ByHeight(Recorded(c, hash, da, h), g) == if g in m[h := da] then Some(m[h := da][g]) else None {
      RecordedAt(c, owner, hash, da, h, g);
      assert ByHeight(c, g) == if g in m then Some(m[g]) else None;
    }
  }

  lemma RecordedAt(c: Cache, owner: Owner, hash: string, da: nat, h: nat, g: nat)
    requires Owned(c, owner) && owner(hash) == h
    ensures ByHeight(Recorded(c, hash, da, h), g) == if g == h then Some(da) else ByHeight(c, g)
  {
    if g != h && g in c.hashByHeight {
      assert owner(c.hashByHeight[g]) == g;
    }
  }

  lemma RecordedOwned(c: Cache, owner: Owner, hash: string, da: nat, h: nat)
    requires Owned(c, owner) && owner(hash) == h
    ensures Owned(Recorded(c, hash, da, h), owner)
  {
    var kept := Forget(c, h, hash);
    forall k | k in kept && k != hash ensures owner(k) != h {
      assert c.hashByHeight[owner(k)] == k;
    }
  }

  lemma DeleteRefines(c: Cache, capacity: nat, owner: Owner, m: map<nat, nat>, h: nat)
    requires Inv(c, capacity, owner) && Refines(c, m)
    ensures Refines(DeleteAllForHeight(c, h), m - {h}) && Inv(DeleteAllForHeight(c, h), capacity, owner)
  {
    var after := DeleteAllForHeight(c, h);
    forall g: nat ensures ByHeight(after, g) == if g in m - {h} then Some((m - {h})[g]) else None {
      assert ByHeight(c, g) == if g in m then Some(m[g]) else None;
      if g != h && g in c.hashByHeight {
        assert owner(c.hashByHeight[g]) == g;
      }
    }
    if h in c.hashByHeight {
      assert after.hashByHeight.Keys == c.hashByHeight.Keys - {h};
    }
  }

  /** Recording one height leaves the answers of all others alone exactly when none of them shares
      the hash it replaces, or the new hash with another DA height. */
  lemma OthersKeptIff(c: Cache, p: Policies, hash: string, da: nat, h: nat)
    requires h in c.hashByHeight || |c.hashByHeight| < p.heights.capacity
    requires hash in Forget(c, h, hash) || |Forget(c, h, hash)| < p.hashes.capacity
    ensures
      (forall g: nat :: g != h ==> ByHeight(SetDAIncluded(c, p, hash, da, h), g) == ByHeight(c, g)) <==>
      (forall g: nat :: g != h && g in c.hashByHeight ==>
        && (c.hashByHeight[g] == hash ==> ByHeight(c, g) == Some(da))
        && (h in c.hashByHeight && c.hashByHeight[g] == c.hashByHeight[h] != hash ==> ByHeight(c, g).None?))
  {
    var after := SetDAIncluded(c, p, hash, da, h);
    forall g: nat | g != h
      ensures ByHeight(after, g) == ByHeight(c, g) <==>
              (g in c.hashByHeight ==>
                 && (c.hashByHeight[g] == hash ==> ByHeight(c, g) == Some(da))
                 && (h in c.hashByHeight && c.hashByHeight[g] == c.hashByHeight[h] != hash ==> ByHeight(c, g).None?))
    {
    }
  }

  /** Seeing a hash keeps the answer of its height if and only if the hash's own inclusion entry gives
      that answer: so when it is the recorded hash, and not after a restart, where the answer is kept
      under a placeholder. With room left the other heights keep theirs. */
  lemma SeenKeepsAnswerIff(c: Cache, p: Policy<nat>, hash: string, h: nat)
    ensures ByHeight(SetSeen(c, p, hash, h), h) == ByHeight(c, h) <==> Included(c, hash) == ByHeight(c, h)
    ensures h in c.hashByHeight && c.hashByHeight[h] == hash ==> Included(c, hash) == ByHeight(c, h)
    ensures Room(c, p.capacity, h) ==> forall g: nat :: g != h ==> ByHeight(SetSeen(c, p, hash, h), g) == ByHeight(c, g)
  {
    AddKeeps(c.hashByHeight, p, h, hash);
  }

  lemma SeenRefines(c: Cache, p: Policy<nat>, capacity: nat, owner: Owner, m: map<nat, nat>, hash: string, h: nat)
    requires Inv(c, capacity, owner) && Refines(c, m) && p.capacity == capacity && Room(c, capacity, h)
    requires owner(hash) == h && Included(c, hash) == ByHeight(c, h)
    ensures Refines(SetSeen(c, p, hash, h), m) && Inv(SetSeen(c, p, hash, h), capacity, owner)
  {
    SeenOwned(c, p, capacity, owner, hash, h);
    SeenKeepsAnswerIff(c, p, hash, h);
    SameAnswersRefine(c, SetSeen(c, p, hash, h), m);
  }

  lemma SameAnswersRefine(c: Cache, after: Cache, m: map<nat, nat>)
    requires Refines(c, m) && forall g: nat :: ByHeight(after, g) == ByHeight(c, g)
    ensures Refines(after, m)
  {
    forall g: nat ensures ByHeight(after, g) == if g in m then Some(m[g]) else None {
      assert ByHeight(c, g) == if g in m then Some(m[g]) else None;
    }
  }

  lemma SeenOwned(c: Cache, p: Policy<nat>, capacity: nat, owner: Owner, hash: string, h: nat)
    requires Inv(c, capacity, owner) && p.capacity == capacity && Room(c, capacity, h)
    requires owner(hash) == h && Included(c, hash) == ByHeight(c, h)
    ensures Inv(SetSeen(c, p, hash, h), capacity, owner)
  {
    forall k | k in c.daIncluded && owner(k) == h ensures k == hash {
      OnlyEntryOf(c, owner, hash, h, k);
    }
    IndexMoved(c, owner, hash, h);
    assert c.hashByHeight[h := hash].Keys == c.hashByHeight.Keys + {h};
  }

  lemma OnlyEntryOf(c: Cache, owner: Owner, hash: string, h: nat, k: string)
    requires Owned(c, owner) && owner(hash) == h && Included(c, hash) == ByHeight(c, h)
    requires k in c.daIncluded && owner(k) == h
    ensures k == hash
  {
    assert c.hashByHeight[h] == k;
    assert hash in c.daIncluded && c.hashByHeight[owner(hash)] == hash;
  }

  lemma IndexMoved(c: Cache, owner: Owner, hash: string, h: nat)
    requires Owned(c, owner) && owner(hash) == h && forall k :: k in c.daIncluded && owner(k) == h ==> k == hash
    ensures Owned(c.(hashByHeight := c.hashByHeight[h := hash]), owner)
  {
  }

  // ---------------------------------------------------------------- save and restore

  predicate Distinct(entries: seq<Entry>) {
    forall i, j :: 0 <= i < j < |entries| ==> entries[i].blockHeight != entries[j].blockHeight
  }

  /** The entries of a snapshot: one for every height with an answer, in any order. */
  ghost predicate Lists(entries: seq<Entry>, c: Cache) {
    && Distinct(entries)
    && (forall e :: e in entries ==> ByHeight(c, e.blockHeight) == Some(e.daHeight))
    && (forall h: nat :: ByHeight(c, h).Some? ==> Entry(h, ByHeight(c, h).value) in entries)
  }

  function Install(c: Cache, p: Policies, prefix: string, e: Entry): Cache {
    var key := Placeholder(prefix, e.blockHeight);
    Cache(Add(c.daIncluded, p.hashes, key, e.daHeight), Add(c.hashByHeight, p.heights, e.blockHeight, key),
          Max(c.maxDA, e.daHeight))
  }

  /** One insertion after the other; `ps` gives the policies of the i-th. */
  function InstallAll(c: Cache, ps: nat -> Policies, prefix: string, entries: seq<Entry>): Cache {
    if entries == [] then c
    else
      var n := |entries| - 1;
      Install(InstallAll(c, ps, prefix, entries[..n]), ps(n), prefix, entries[n])
  }

  /** RestoreFromStore; a missing snapshot changes nothing. */
  function Restore(c: Cache, ps: nat -> Policies, prefix: string, snapshot: Option<Bytes>): Cache {
    if snapshot.None? then c else InstallAll(c, ps, prefix, Decode(snapshot.value))
  }

  ghost predicate AllSized(ps: nat -> Policies, capacity: nat) {
    forall i: nat :: Sized(ps(i), capacity)
  }

  function AsMap(entries: seq<Entry>): map<nat, nat> {
    if entries == [] then map[]
    else AsMap(entries[..|entries| - 1])[entries[|entries| - 1].blockHeight := entries[|entries| - 1].daHeight]
  }

  function MaxOf(entries: seq<Entry>): nat {
    if entries == [] then 0 else Max(MaxOf(entries[..|entries| - 1]), entries[|entries| - 1].daHeight)
  }

  lemma {:induction false} AsMapExact(entries: seq<Entry>, h: nat)
    requires Distinct(entries)
    ensures h in AsMap(entries) <==> exists i :: 0 <= i < |entries| && entries[i].blockHeight == h
    ensures forall e :: e in entries && e.blockHeight == h ==> h in AsMap(entries) && AsMap(entries)[h] == e.daHeight
    ensures |AsMap(entries)| == |entries|
    decreases |entries|
  {
    if entries != [] {
      var n := |entries| - 1;
      AsMapExact(entries[..n], h);
      AsMapExact(entries[..n], entries[n].blockHeight);
      assert forall e :: e in entries ==> e in entries[..n] || e == entries[n];
    }
  }

  lemma {:induction false} MaxOfExact(entries: seq<Entry>)
    ensures forall e :: e in entries ==> e.daHeight <= MaxOf(entries)
    ensures MaxOf(entries) == 0 || exists e :: e in entries && e.daHeight == MaxOf(entries)
    decreases |entries|
  {
    if entries != [] {
      var n := |entries| - 1;
      MaxOfExact(entries[..n]);
      assert forall e :: e in entries ==> e in entries[..n] || e == entries[n];
      assert entries[n] in entries;
      if MaxOf(entries) != 0 && MaxOf(entries) != entries[n].daHeight {
        var e :| e in entries[..n] && e.daHeight == MaxOf(entries[..n]);
        assert e in entries;
      }
    }
  }

  /** Placeholders stand for their heights. */
  ghost predicate OwnsPlaceholders(owner: Owner, prefix: string) {
    forall h: nat :: h < U64 ==> owner(Placeholder(prefix, h)) == h
  }

  lemma {:induction false} InstalledRefines(
    ps: nat -> Policies, capacity: nat, owner: Owner, prefix: string, entries: seq<Entry>)
    requires AllSized(ps, capacity) && |entries| <= capacity && OwnsPlaceholders(owner, prefix)
    requires Distinct(entries) && forall e :: e in entries ==> Fits(e)
    ensures
      var r := InstallAll(FRESH, ps, prefix, entries);
      && Refines(r, AsMap(entries)) && Inv(r, capacity, owner) && r.maxDA == MaxOf(entries)
      && r.hashByHeight.Keys == AsMap(entries).Keys
    decreases |entries|
  {
    if entries != [] {
      var n := |entries| - 1;
      var e := entries[n];
      InstalledRefines(ps, capacity, owner, prefix, entries[..n]);
      var r := InstallAll(FRESH, ps, prefix, entries[..n]);
      FreshHeight(entries, n);
      assert e in entries && Fits(e);
      InstallIsInclude(r, ps(n), capacity, owner, prefix, AsMap(entries[..n]), e);
      assert InstallAll(FRESH, ps, prefix, entries) == Install(r, ps(n), prefix, e);
      assert AsMap(entries) == AsMap(entries[..n])[e.blockHeight := e.daHeight];
    }
  }

  lemma FreshHeight(entries: seq<Entry>, n: nat)
    requires Distinct(entries) && n + 1 == |entries|
    ensures entries[n].blockHeight !in AsMap(entries[..n]) && |AsMap(entries[..n])| == n
  {
    AsMapExact(entries[..n], entries[n].blockHeight);
  }

  lemma InstallIsInclude(
    c: Cache, p: Policies, capacity: nat, owner: Owner, prefix: string, m: map<nat, nat>, e: Entry)
    requires Sized(p, capacity) && OwnsPlaceholders(owner, prefix) && Fits(e)
    requires Inv(c, capacity, owner) && Refines(c, m) && c.hashByHeight.Keys == m.Keys
    requires e.blockHeight !in m && |m| < capacity
    ensures
      var r := Install(c, p, prefix, e);
      && Refines(r, m[e.blockHeight := e.daHeight]) && Inv(r, capacity, owner)
      && r.hashByHeight.Keys == m.Keys + {e.blockHeight} && r.maxDA == Max(c.maxDA, e.daHeight)
  {
    var key := Placeholder(prefix, e.blockHeight);
    assert |c.hashByHeight.Keys| == |m.Keys|;
    assert Install(c, p, prefix, e) == SetDAIncluded(c, p, key, e.daHeight, e.blockHeight);
    IncludeRefines(c, p, capacity, owner, m, key, e.daHeight, e.blockHeight);
  }

  lemma {:induction false} DistinctHeights(entries: seq<Entry>, keys: set<nat>)
    requires Distinct(entries) && forall e :: e in entries ==> e.blockHeight in keys
    ensures |entries| <= |keys|
    decreases |entries|
  {
    if entries != [] {
      var n := |entries| - 1;
      DistinctHeights(entries[..n], keys - {entries[n].blockHeight});
    }
  }

  /** Saving the cache in any order and restoring it into a fresh one gives the same answer for every
      height, and a maximum that is the largest of the answers. */
  lemma SnapshotRestores(c: Cache, ps: nat -> Policies, capacity: nat, prefix: string, entries: seq<Entry>)
    requires AllSized(ps, capacity) && |c.hashByHeight| <= capacity
    requires Lists(entries, c) && forall e :: e in entries ==> Fits(e)
    ensures
      var r := Restore(FRESH, ps, prefix, Some(Encode(entries)));
      && (forall h: nat :: ByHeight(r, h) == ByHeight(c, h))
      && (forall h: nat :: ByHeight(c, h).Some? ==> ByHeight(c, h).value <= r.maxDA)
      && (r.maxDA == 0 || exists h: nat :: ByHeight(c, h) == Some(r.maxDA))
  {
    HeightOfPlaceholder(prefix);
    RestoredRefines(c, ps, capacity, k => HeightOf(prefix, k), prefix, entries);
    MaxOfExact(entries);
    var r := Restore(FRESH, ps, prefix, Some(Encode(entries)));
    ListsRefine(entries, c);
    if r.maxDA != 0 {
      var e :| e in entries && e.daHeight == r.maxDA;
      assert ByHeight(c, e.blockHeight) == Some(r.maxDA);
    }
  }

  /** The height whose placeholder `k` is. */
  ghost function HeightOf(prefix: string, k: string): nat {
    if exists h: nat :: h < U64 && Placeholder(prefix, h) == k
    then var h: nat :| h < U64 && Placeholder(prefix, h) == k; h else 0
  }

  lemma HeightOfPlaceholder(prefix: string)
    ensures OwnsPlaceholders(k => HeightOf(prefix, k), prefix)
  {
    forall h: nat | h < U64 ensures HeightOf(prefix, Placeholder(prefix, h)) == h {
      PlaceholderInjective(prefix, HeightOf(prefix, Placeholder(prefix, h)), h, []);
    }
  }

  lemma RestoredRefines(
    c: Cache, ps: nat -> Policies, capacity: nat, owner: Owner, prefix: string, entries: seq<Entry>)
    requires AllSized(ps, capacity) && |c.hashByHeight| <= capacity && OwnsPlaceholders(owner, prefix)
    requires Lists(entries, c) && forall e :: e in entries ==> Fits(e)
    ensures
      var r := Restore(FRESH, ps, prefix, Some(Encode(entries)));
      Inv(r, capacity, owner) && Refines(r, AsMap(entries)) && Refines(c, AsMap(entries)) && r.maxDA == MaxOf(entries)
  {
    SnapshotRoundTrip(entries);
    forall e | e in entries ensures e.blockHeight in c.hashByHeight.Keys {
    }
    DistinctHeights(entries, c.hashByHeight.Keys);
    InstalledRefines(ps, capacity, owner, prefix, entries);
    ListsRefine(entries, c);
  }

  lemma ListsRefine(entries: seq<Entry>, c: Cache)
    requires Lists(entries, c)
    ensures Refines(c, AsMap(entries))
  {
    forall h: nat ensures ByHeight(c, h) == if h in AsMap(entries) then Some(AsMap(entries)[h]) else None {
      AsMapExact(entries, h);
      if ByHeight(c, h).Some? {
        assert Entry(h, ByHeight(c, h).value) in entries;
      } else {
        assert forall i :: 0 <= i < |entries| ==> entries[i] in entries;
      }
    }
  }

  // ---------------------------------------------------------------- runs

  /** A restart saves the cache, listing its heights in some order, and restores it into a new one. */
  datatype Op =
    | Include(hash: string, da: nat, height: nat, p: Policies)
    | Seen(hash: string, height: nat, policy: Policy<nat>)
    | Delete(height: nat)
    | Restart(entries: seq<Entry>, ps: nat -> Policies)

  function Do(c: Cache, prefix: string, op: Op): Cache {
    match op
    case Include(hash, da, h, p) => SetDAIncluded(c, p, hash, da, h)
    case Seen(hash, h, p) => SetSeen(c, p, hash, h)
    case Delete(h) => DeleteAllForHeight(c, h)
    case Restart(entries, ps) => Restore(FRESH, ps, prefix, Some(Encode(entries)))
  }

  function DoPlain(m: map<nat, nat>, op: Op): map<nat, nat> {
    match op
    case Include(_, da, h, _) => m[h := da]
    case Seen(_, _, _) => m
    case Delete(h) => m - {h}
    case Restart(_, _) => m
  }

  /** An inclusion entry of the hash is the height's current DA height. */
  ghost predicate NotStale(c: Cache, m: map<nat, nat>, hash: string, h: nat) {
    hash in c.daIncluded ==> h in m && m[h] == c.daIncluded[hash]
  }

  /** A hash belongs to one height, a hash seen has no stale inclusion entry, and a restart lists what
      is there. */
  ghost predicate Allowed(c: Cache, owner: Owner, m: map<nat, nat>, op: Op) {
    match op
    case Include(hash, da, h, _) => owner(hash) == h
    case Seen(hash, h, _) => owner(hash) == h && NotStale(c, m, hash, h)
    case Delete(h) => true
    case Restart(entries, _) => Lists(entries, c) && forall e :: e in entries ==> Fits(e)
  }

  /** The operation finds room in caches of the given size, and a hash seen keeps the answer. */
  ghost predicate Lossless(c: Cache, capacity: nat, op: Op) {
    match op
    case Include(_, _, h, p) => Sized(p, capacity) && Room(c, capacity, h)
    case Seen(hash, h, p) => p.capacity == capacity && Room(c, capacity, h) && Included(c, hash) == ByHeight(c, h)
    case Delete(h) => true
    case Restart(_, ps) => AllSized(ps, capacity)
  }

  ghost predicate AllowedRun(c: Cache, owner: Owner, prefix: string, m: map<nat, nat>, ops: seq<Op>)
    decreases ops
  {
    ops == [] ||
    (Allowed(c, owner, m, ops[0]) && AllowedRun(Do(c, prefix, ops[0]), owner, prefix, DoPlain(m, ops[0]), ops[1..]))
  }

  ghost predicate LosslessRun(c: Cache, capacity: nat, prefix: string, ops: seq<Op>)
    decreases ops
  {
    ops == [] || (Lossless(c, capacity, ops[0]) && LosslessRun(Do(c, prefix, ops[0]), capacity, prefix, ops[1..]))
  }

  function Run(c: Cache, prefix: string, ops: seq<Op>): Cache
    decreases ops
  {
    if ops == [] then c else Run(Do(c, prefix, ops[0]), prefix, ops[1..])
  }

  function RunPlain(m: map<nat, nat>, ops: seq<Op>): map<nat, nat>
    decreases ops
  {
    if ops == [] then m else RunPlain(DoPlain(m, ops[0]), ops[1..])
  }

  lemma StepRefines(c: Cache, capacity: nat, owner: Owner, prefix: string, m: map<nat, nat>, op: Op)
    requires OwnsPlaceholders(owner, prefix) && Inv(c, capacity, owner) && Refines(c, m)
    requires Allowed(c, owner, m, op) && Lossless(c, capacity, op)
    ensures Refines(Do(c, prefix, op), DoPlain(m, op)) && Inv(Do(c, prefix, op), capacity, owner)
  {
    match op
    case Include(hash, da, h, p) => IncludeRefines(c, p, capacity, owner, m, hash, da, h);
    case Seen(hash, h, p) => SeenRefines(c, p, capacity, owner, m, hash, h);
    case Delete(h) => DeleteRefines(c, capacity, owner, m, h);
    case Restart(entries, ps) =>
      RestoredRefines(c, ps, capacity, owner, prefix, entries);
      forall h: nat ensures ByHeight(Do(c, prefix, op), h) == if h in m then Some(m[h]) else None {
        assert ByHeight(c, h) == if h in m then Some(m[h]) else None;
      }
  }

  /** Over every run of inclusions, hashes seen, deletions and restarts in which the caches are not
      overfull and no hash seen takes the place of an answer, the cache is the plain map from heights to
      DA heights, and no answer exceeds the maximum it reports. */
  lemma {:induction false} CacheRefinesMap(
    c: Cache, capacity: nat, owner: Owner, prefix: string, m: map<nat, nat>, ops: seq<Op>)
    requires OwnsPlaceholders(owner, prefix) && Inv(c, capacity, owner) && Refines(c, m)
    requires AllowedRun(c, owner, prefix, m, ops) && LosslessRun(c, capacity, prefix, ops)
    ensures Refines(Run(c, prefix, ops), RunPlain(m, ops))
    ensures forall h: nat :: h in RunPlain(m, ops) ==> RunPlain(m, ops)[h] <= Run(c, prefix, ops).maxDA
    decreases ops
  {
    if ops == [] {
      forall h: nat | h in m ensures m[h] <= c.maxDA {
        assert ByHeight(c, h) == Some(m[h]);
      }
    } else {
      StepRefines(c, capacity, owner, prefix, m, ops[0]);
      CacheRefinesMap(Do(c, prefix, ops[0]), capacity, owner, prefix, DoPlain(m, ops[0]), ops[1..]);
    }
  }

  /** Between restarts the reported maximum is the largest DA height ever included: deletions do not
      lower it, whatever is evicted. */
  lemma {:induction false} MaximumIsLargest(c: Cache, prefix: string, ops: seq<Op>)
    requires forall i :: 0 <= i < |ops| ==> !ops[i].Restart?
    ensures
      var now := Run(c, prefix, ops).maxDA;
      && c.maxDA <= now && (forall i :: 0 <= i < |ops| && ops[i].Include? ==> ops[i].da <= now)
      && (now == c.maxDA || exists i :: 0 <= i < |ops| && ops[i].Include? && ops[i].da == now)
    decreases ops
  {
    if ops != [] {
      var next, now := Do(c, prefix, ops[0]), Run(c, prefix, ops).maxDA;
      MaximumIsLargest(next, prefix, ops[1..]);
      forall i | 0 <= i < |ops| && ops[i].Include? ensures ops[i].da <= now {
        assert i > 0 ==> ops[i] == ops[1..][i - 1];
      }
      if now != c.maxDA && now != next.maxDA {
        var i :| 0 <= i < |ops[1..]| && ops[1..][i].Include? && ops[1..][i].da == now;
        assert ops[i + 1].Include? && ops[i + 1].da == now;
      }
    }
  }

  // ---------------------------------------------------------------- runs that overfill the caches

  /** Whatever the cache still answers is right. */
  ghost predicate Sound(c: Cache, owner: Owner, m: map<nat, nat>) {
    forall h: nat :: h in c.hashByHeight ==>
      && owner(c.hashByHeight[h]) == h
      && (c.hashByHeight[h] in c.daIncluded ==> h in m && m[h] == c.daIncluded[c.hashByHeight[h]])
  }

  lemma IncludeIsSound(c: Cache, p: Policies, owner: Owner, m: map<nat, nat>, hash: string, da: nat, h: nat)
    requires Sound(c, owner, m) && owner(hash) == h
    ensures Sound(SetDAIncluded(c, p, hash, da, h), owner, m[h := da])
  {
    AddKeeps(Forget(c, h, hash), p.hashes, hash, da);
    AddKeeps(c.hashByHeight, p.heights, h, hash);
    var after := SetDAIncluded(c, p, hash, da, h);
    forall g: nat | g in after.hashByHeight && g != h
      ensures after.hashByHeight[g] != hash && g in c.hashByHeight && after.hashByHeight[g] == c.hashByHeight[g]
    {
    }
  }

  /** Seeing a hash keeps the cache sound exactly when its inclusion entry, if any, is not stale. */
  lemma SeenIsSoundIff(c: Cache, p: Policy<nat>, owner: Owner, m: map<nat, nat>, hash: string, h: nat)
    requires Sound(c, owner, m) && owner(hash) == h
    ensures Sound(SetSeen(c, p, hash, h), owner, m) <==> NotStale(c, m, hash, h)
  {
    AddKeeps(c.hashByHeight, p, h, hash);
  }

  /** Restored entries are entries of the snapshot, under their own placeholders. */
  lemma {:induction false} InstalledIsSound(
    ps: nat -> Policies, owner: Owner, prefix: string, entries: seq<Entry>, m: map<nat, nat>)
    requires OwnsPlaceholders(owner, prefix)
    requires forall e :: e in entries ==> Fits(e) && e.blockHeight in m && m[e.blockHeight] == e.daHeight
    ensures Sound(InstallAll(FRESH, ps, prefix, entries), owner, m)
    decreases |entries|
  {
    if entries != [] {
      var n := |entries| - 1;
      var c, e := InstallAll(FRESH, ps, prefix, entries[..n]), entries[n];
      InstalledIsSound(ps, owner, prefix, entries[..n], m);
      assert e in entries;
      InstallIsSound(c, ps(n), owner, prefix, m, e);
    }
  }

  lemma InstallIsSound(c: Cache, p: Policies, owner: Owner, prefix: string, m: map<nat, nat>, e: Entry)
    requires OwnsPlaceholders(owner, prefix) && Sound(c, owner, m)
    requires Fits(e) && e.blockHeight in m && m[e.blockHeight] == e.daHeight
    ensures Sound(Install(c, p, prefix, e), owner, m)
  {
    var key := Placeholder(prefix, e.blockHeight);
    AddKeeps(c.daIncluded, p.hashes, key, e.daHeight);
    AddKeeps(c.hashByHeight, p.heights, e.blockHeight, key);
    assert owner(key) == e.blockHeight;
  }

  lemma StepIsSound(c: Cache, owner: Owner, prefix: string, m: map<nat, nat>, op: Op)
    requires OwnsPlaceholders(owner, prefix) && Sound(c, owner, m) && Allowed(c, owner, m, op)
    ensures Sound(Do(c, prefix, op), owner, DoPlain(m, op))
  {
    match op
    case Include(hash, da, h, p) => IncludeIsSound(c, p, owner, m, hash, da, h);
    case Seen(hash, h, p) => SeenIsSoundIff(c, p, owner, m, hash, h);
    case Delete(h) =>
    case Restart(entries, ps) =>
      SnapshotRoundTrip(entries);
      forall e | e in entries ensures e.blockHeight in m && m[e.blockHeight] == e.daHeight {
        assert ByHeight(c, e.blockHeight) == Some(e.daHeight);
      }
      InstalledIsSound(ps, owner, prefix, entries, m);
  }

  /** Over every run, whatever is evicted or hidden on the way: an answer, when there is one, is that
      of the plain map. */
  lemma {:induction false} CacheIsSound(c: Cache, owner: Owner, prefix: string, m: map<nat, nat>, ops: seq<Op>)
    requires OwnsPlaceholders(owner, prefix) && Sound(c, owner, m) && AllowedRun(c, owner, prefix, m, ops)
    ensures Sound(Run(c, prefix, ops), owner, RunPlain(m, ops))
    ensures forall h: nat :: ByHeight(Run(c, prefix, ops), h).Some? ==>
              h in RunPlain(m, ops) && ByHeight(Run(c, prefix, ops), h).value == RunPlain(m, ops)[h]
    decreases ops
  {
    if ops != [] {
      StepIsSound(c, owner, prefix, m, ops[0]);
      CacheIsSound(Do(c, prefix, ops[0]), owner, prefix, DoPlain(m, ops[0]), ops[1..]);
    }
  }
}

module DACaches {
  import opened Basics
  import opened Keys
  import opened Lru
  import opened DACache

  /** binary.LittleEndian.PutUint64(buf[off:], v) */
  method PutUint64(buf: array<byte>, off: nat, v: nat)
    requires off + 8 <= buf.Length
    modifies buf
    ensures buf[..] == old(buf[..off]) + EncodeHeight(v) + old(buf[off + 8..])
  {
    var i, rest := 0, v;
    while i < 8
      invariant i <= 8
      invariant EncodeHeight(v) == buf[off..off + i] + LittleEndian(rest, 8 - i)
      invariant buf[..off] == old(buf[..off]) && buf[off + i..] == old(buf[off + i..])
    {
      ghost var done := buf[off..off + i];
      buf[off + i] := rest % 256;
      assert buf[off..off + i + 1] == done + [rest % 256];
      assert LittleEndian(rest, 8 - i) == [rest % 256] + LittleEndian(rest / 256, 8 - i - 1);
      assert buf[off + i + 1..] == old(buf[off + i..])[1..] == old(buf[off + i + 1..]);
      rest, i := rest / 256, i + 1;
    }
    assert buf[..] == buf[..off] + buf[off..off + 8] + buf[off + 8..];
  }

  method EncodeSnapshot(entries: seq<Entry>) returns (buf: array<byte>)
    ensures buf[..] == Encode(entries)
  {
    buf := new byte[|entries| * 16](_ => 0);
    for i := 0 to |entries|
      invariant buf[..16 * i] == Encode(entries[..i])
    {
      var off := i * 16;
      PutUint64(buf, off, entries[i].blockHeight);
      PutUint64(buf, off + 8, entries[i].daHeight);
      assert buf[..16 * i + 16] == Encode(entries[..i]) + EncodeEntry(entries[i]);
      assert entries[..i + 1][..i] == entries[..i];
    }
    assert entries[..|entries|] == entries && buf[..16 * |entries|] == buf[..];
  }

  method DecodeSnapshot(buf: Bytes) returns (entries: seq<Entry>)
    ensures entries == Decode(buf)
  {
    if |buf| == 0 || |buf| % 16 != 0 {
      return [];
    }
    entries := [];
    for i := 0 to |buf| / 16
      invariant entries == Decode(buf)[..i]
    {
      var off := i * 16;
      var e := Entry(LittleEndianValue(buf[off..off + 8]), LittleEndianValue(buf[off + 8..off + 16]));
      assert Decode(buf)[..i + 1] == Decode(buf)[..i] + [Decode(buf)[i]];
      entries := entries + [e];
    }
  }

  /** Writes the digits from the last one back. */
  method HeightPlaceholderKey(prefix: string, height: nat) returns (key: string)
    ensures key == Placeholder(prefix, height)
  {
    var digits := new char[16](_ => '0');
    var i, rest := 16, height;
    while i > 0
      invariant i <= 16
      invariant HexDigits(height, 16) == HexDigits(rest, i) + digits[i..]
    {
      ghost var done := digits[i..];
      i := i - 1;
      digits[i] := LOWER_HEX[rest % 16];
      assert digits[i..] == [LOWER_HEX[rest % 16]] + done;
      rest := rest / 16;
    }
    assert digits[0..] == digits[..];
    return prefix + "__h/" + digits[..];
  }

  class InclusionCache<T> {
    const prefix: string
    var itemsByHeight: map<nat, T>
    var hashes: map<string, bool>
    var daIncluded: map<string, nat>
    var hashByHeight: map<nat, string>
    var maxDAHeight: nat

    constructor (prefix: string)
      ensures this.prefix == prefix && View() == FRESH && itemsByHeight == map[] && hashes == map[]
    {
      this.prefix := prefix;
      itemsByHeight, hashes, daIncluded, hashByHeight, maxDAHeight := map[], map[], map[], map[], 0;
    }

    ghost function View(): Cache
      reads this
    {
      Cache(daIncluded, hashByHeight, maxDAHeight)
    }

    method SetMaxDAHeight(daHeight: nat)
      modifies `maxDAHeight
      ensures maxDAHeight == Max(old(maxDAHeight), daHeight)
    {
      if daHeight > maxDAHeight {
        maxDAHeight := daHeight;
      }
    }

    method MarkSeen(hash: string, height: nat, p: Policies)
      modifies `hashes, `hashByHeight
      ensures View() == SetSeen(old(View()), p.heights, hash, height)
      ensures hashes == Add(old(hashes), p.hashes, hash, true)
    {
      hashes := Add(hashes, p.hashes, hash, true);
      hashByHeight := Add(hashByHeight, p.heights, height, hash);
    }

    method RecordDAIncluded(hash: string, daHeight: nat, blockHeight: nat, p: Policies)
      modifies `daIncluded, `hashByHeight, `maxDAHeight
      ensures View() == SetDAIncluded(old(View()), p, hash, daHeight, blockHeight)
    {
      if blockHeight in hashByHeight && hashByHeight[blockHeight] != hash {
        daIncluded := daIncluded - {hashByHeight[blockHeight]};
      }
      daIncluded := Add(daIncluded, p.hashes, hash, daHeight);
      hashByHeight := Add(hashByHeight, p.heights, blockHeight, hash);
      SetMaxDAHeight(daHeight);
    }

    /** Removes the item of the height, and what is known about the hash recorded for it. */
    method DeleteHeight(height: nat)
      modifies this
      ensures View() == DeleteAllForHeight(old(View()), height)
      ensures itemsByHeight == old(itemsByHeight) - {height}
      ensures hashes == old(hashes) - (if height in old(hashByHeight) then {old(hashByHeight)[height]} else {})
    {
      itemsByHeight := itemsByHeight - {height};
      if height in hashByHeight {
        var hash := hashByHeight[height];
        hashByHeight := hashByHeight - {height};
        hashes := hashes - {hash};
        daIncluded := daIncluded - {hash};
      }
    }

    /** Walks over the recorded heights in whatever order the LRU cache lists them; without a key
        prefix nothing is written. */
    method PersistSnapshot() returns (snapshot: Option<Bytes>)
      ensures snapshot.None? <==> prefix == ""
      ensures snapshot.Some? ==> exists entries :: Lists(entries, View()) && snapshot.value == Encode(entries)
    {
      if prefix == "" {
        return None;
      }
      var entries: seq<Entry> := [];
      var heights := hashByHeight.Keys;
      while heights != {}
        invariant heights <= hashByHeight.Keys && Distinct(entries)
        invariant forall e :: e in entries ==>
                    ByHeight(View(), e.blockHeight) == Some(e.daHeight) && e.blockHeight !in heights
        invariant forall h: nat :: ByHeight(View(), h).Some? && h !in heights ==>
                    Entry(h, ByHeight(View(), h).value) in entries
        decreases heights
      {
        var h :| h in heights;
        heights := heights - {h};
        var hash := hashByHeight[h];
        if hash in daIncluded {
          entries := entries + [Entry(h, daIncluded[hash])];
        }
      }
      assert Lists(entries, View());
      var buf := EncodeSnapshot(entries);
      return Some(buf[..]);
    }

    method RestoreFromStore(snapshot: Option<Bytes>, ps: nat -> Policies)
      modifies `daIncluded, `hashByHeight, `maxDAHeight
      ensures View() == if prefix == "" then old(View()) else Restore(old(View()), ps, prefix, snapshot)
    {
      if prefix == "" || snapshot.None? {
        return;
      }
      var entries := DecodeSnapshot(snapshot.value);
      for i := 0 to |entries|
        invariant View() == InstallAll(old(View()), ps, prefix, entries[..i])
      {
        var placeholder := HeightPlaceholderKey(prefix, entries[i].blockHeight);
        daIncluded := Add(daIncluded, ps(i).hashes, placeholder, entries[i].daHeight);
        hashByHeight := Add(hashByHeight, ps(i).heights, entries[i].blockHeight, placeholder);
        SetMaxDAHeight(entries[i].daHeight);
        assert entries[..i + 1][..i] == entries[..i];
      }
      assert entries[..|entries|] == entries;
    }
  }
}

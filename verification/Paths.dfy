/** How a key of the store becomes an entry of the database. The store's own accesses go through NewKey
    of the go-datastore library, which applies Go's path.Clean to the rooted string: empty and "."
    segments vanish and ".." removes the segment before it. Batches use RawKey, which takes the string
    as it is; the keys they write are plain, and for plain keys the two agree (BatchEntriesAgree). */
module Paths {
  import opened Basics
  import opened Keys

  // ---------------------------------------------------------------- segments

  /** The pieces between slashes; one more than there are slashes. */
  function Split(s: string): (segs: seq<string>)
    ensures |segs| >= 1
  {
    if s == [] then [[]]
    else
      var rest := Split(s[1..]);
      if s[0] == '/' then [[]] + rest else [[s[0]] + rest[0]] + rest[1..]
  }

  function Join(segs: seq<string>): string {
    if segs == [] then [] else "/" + segs[0] + Join(segs[1..])
  }

  predicate SlashFree(segs: seq<string>) {
    forall i :: 0 <= i < |segs| ==> '/' !in segs[i]
  }

  lemma JoinCons(seg: string, rest: seq<string>)
    ensures Join([seg] + rest) == "/" + seg + Join(rest)
  {
    assert ([seg] + rest)[1..] == rest;
  }

  lemma {:induction false} SplitExact(s: string)
    ensures Join(Split(s)) == "/" + s && SlashFree(Split(s))
    decreases s
  {
    if s == [] {
      JoinCons("", []);
      assert [""] + [] == [""];
    } else {
      SplitExact(s[1..]);
      var rest := Split(s[1..]);
      if s[0] == '/' {
        JoinCons([], rest);
      } else {
        PushFront(s[0], rest, s[1..]);
      }
      assert s == [s[0]] + s[1..];
    }
  }

  lemma PushFront(c: char, segs: seq<string>, s: string)
    requires segs != [] && Join(segs) == "/" + s
    ensures Join([[c] + segs[0]] + segs[1..]) == "/" + ([c] + s)
  {
    var more := Join(segs[1..]);
    assert segs == [segs[0]] + segs[1..];
    JoinCons(segs[0], segs[1..]);
    Assoc("/", segs[0], more);
    SlashCancel(segs[0] + more, s);
    JoinCons([c] + segs[0], segs[1..]);
    Assoc("/", [c] + segs[0], more);
    Assoc([c], segs[0], more);
  }

  lemma Assoc(a: string, b: string, c: string)
    ensures a + b + c == a + (b + c)
  {
  }

  lemma SlashCancel(a: string, b: string)
    requires "/" + a == "/" + b
    ensures a == b
  {
    assert ("/" + a)[1..] == a && ("/" + b)[1..] == b;
  }

  lemma {:induction false} SplitNoSlash(s: string)
    requires '/' !in s
    ensures Split(s) == [s]
    decreases s
  {
    if s != [] {
      SplitNoSlash(s[1..]);
      assert [s[1..]][1..] == [] && [s[0]] + s[1..] == s;
    }
  }

  lemma {:induction false} SplitAfter(a: string, b: string)
    requires '/' !in a
    ensures Split(a + "/" + b) == [a] + Split(b)
    decreases a
  {
    var s := a + "/" + b;
    if a == [] {
      assert s[1..] == b;
    } else {
      assert s[0] == a[0] && s[1..] == a[1..] + "/" + b;
      SplitAfter(a[1..], b);
      var rest := Split(s[1..]);
      assert rest[0] == a[1..] && rest[1..] == Split(b) && [a[0]] + a[1..] == a;
    }
  }

  /** Slash-free segments are recovered from the joined string. */
  lemma {:induction false} SplitJoin(segs: seq<string>)
    requires SlashFree(segs)
    ensures Split(Join(segs)) == [""] + segs || segs == []
    decreases segs
  {
    if |segs| == 1 {
      assert Join(segs) == "" + "/" + segs[0] by {
        assert segs[1..] == [];
      }
      SplitNoSlash(segs[0]);
      SplitAfter("", segs[0]);
    } else if |segs| > 1 {
      var rest := segs[1..];
      SplitJoin(rest);
      var tail := Join(rest)[1..];
      assert Join(rest) == "" + "/" + tail;
      SplitAfter("", tail);
      assert Split(tail) == rest by {
        assert Split(Join(rest))[1..] == Split(tail) && ([""] + rest)[1..] == rest;
      }
      assert Join(segs) == "" + "/" + (segs[0] + "/" + tail);
      SplitAfter("", segs[0] + "/" + tail);
      SplitAfter(segs[0], tail);
    }
  }

  lemma JoinInjective(a: seq<string>, b: seq<string>)
    requires SlashFree(a) && SlashFree(b) && Join(a) == Join(b)
    ensures a == b
  {
    SplitJoin(a);
    SplitJoin(b);
    if a != [] && b != [] {
      assert ([""] + a)[1..] == a && ([""] + b)[1..] == b;
    }
  }

  // ---------------------------------------------------------------- cleaning

  predicate Plain(seg: string) {
    seg != "" && seg != "." && seg != ".."
  }

  predicate AllPlain(segs: seq<string>) {
    forall i :: 0 <= i < |segs| ==> Plain(segs[i])
  }

  /** path.Clean on a rooted path: a stack of segments. */
  function Resolve(segs: seq<string>, stack: seq<string>): seq<string>
    decreases segs
  {
    if segs == [] then stack
    else if segs[0] == "" || segs[0] == "." then Resolve(segs[1..], stack)
    else if segs[0] == ".." then Resolve(segs[1..], if stack == [] then [] else stack[..|stack| - 1])
    else Resolve(segs[1..], stack + [segs[0]])
  }

  function PathOf(stack: seq<string>): string {
    if stack == [] then "/" else Join(stack)
  }

  /** ds.NewKey: a missing leading slash is added first, which only adds an empty segment. */
  function NewKey(s: string): string {
    PathOf(Resolve(Split(s), []))
  }

  lemma {:induction false} ResolveIsPlain(segs: seq<string>, stack: seq<string>)
    requires SlashFree(segs) && SlashFree(stack) && AllPlain(stack)
    ensures SlashFree(Resolve(segs, stack)) && AllPlain(Resolve(segs, stack))
    decreases segs
  {
    if segs != [] {
      if segs[0] == "" || segs[0] == "." {
        ResolveIsPlain(segs[1..], stack);
      } else if segs[0] == ".." {
        ResolveIsPlain(segs[1..], if stack == [] then [] else stack[..|stack| - 1]);
      } else {
        ResolveIsPlain(segs[1..], stack + [segs[0]]);
      }
    }
  }

  lemma {:induction false} ResolveOfPlain(segs: seq<string>, stack: seq<string>)
    requires AllPlain(segs)
    ensures Resolve(segs, stack) == stack + segs
    decreases segs
  {
    if segs != [] {
      ResolveOfPlain(segs[1..], stack + [segs[0]]);
      assert stack + [segs[0]] + segs[1..] == stack + segs;
    }
  }

  lemma {:induction false} ResolveAppend(a: seq<string>, b: seq<string>, stack: seq<string>)
    ensures Resolve(a + b, stack) == Resolve(b, Resolve(a, stack))
    decreases a
  {
    if a == [] {
      assert a + b == b;
    } else {
      assert (a + b)[0] == a[0] && (a + b)[1..] == a[1..] + b;
      if a[0] == "" || a[0] == "." {
        ResolveAppend(a[1..], b, stack);
      } else if a[0] == ".." {
        ResolveAppend(a[1..], b, if stack == [] then [] else stack[..|stack| - 1]);
      } else {
        ResolveAppend(a[1..], b, stack + [a[0]]);
      }
    }
  }

  /** Without ".." nothing that was there before is removed. */
  lemma {:induction false} ResolveKeepsStack(segs: seq<string>, stack: seq<string>)
    requires ".." !in segs
    ensures stack <= Resolve(segs, stack)
    decreases segs
  {
    if segs != [] {
      if segs[0] == "" || segs[0] == "." {
        ResolveKeepsStack(segs[1..], stack);
      } else {
        ResolveKeepsStack(segs[1..], stack + [segs[0]]);
      }
    }
  }

  // ---------------------------------------------------------------- entries of keys

  function Segments(k: Key): seq<string> {
    match k
    case HeaderK(h) => ["h", Decimal(h)]
    case DataK(h) => ["d", Decimal(h)]
    case SignatureK(h) => ["c", Decimal(h)]
    case StateK(h) => ["s", Decimal(h)]
    case MetaK(name) => ["m"] + Split(name)
    case IndexK(hash) => ["i", Hex(hash)]
    case HeightK => ["t"]
  }

  /** The database entry a key reaches. */
  function Entry(k: Key): string {
    NewKey(Render(k))
  }

  predicate PlainKey(k: Key) {
    AllPlain(Segments(k))
  }

  /** A metadata name without empty, "." or ".." segment. */
  predicate PlainName(name: string) {
    AllPlain(Split(name))
  }

  function ExampleName(): (name: string)
    ensures PlainName(name)
  {
    SplitNoSlash(DA_INCLUDED_HEIGHT);
    DA_INCLUDED_HEIGHT
  }

  type MetadataName = name: string | PlainName(name) witness ExampleName()

  lemma {:induction false} DecimalDigits(n: nat, i: nat)
    requires i < |Decimal(n)|
    ensures Decimal(n)[i] in DIGITS
    decreases n
  {
    if n >= 10 && i < |Decimal(n)| - 1 {
      DecimalDigits(n / 10, i);
    }
  }

  lemma DecimalIsPlain(n: nat)
    ensures '/' !in Decimal(n) && Plain(Decimal(n))
  {
    forall i | 0 <= i < |Decimal(n)| ensures Decimal(n)[i] in DIGITS {
      DecimalDigits(n, i);
    }
    assert '/' !in DIGITS && '.' !in DIGITS;
    assert Decimal(n)[0] in DIGITS;
  }

  lemma {:induction false} HexHasNoSlash(b: Bytes)
    ensures '/' !in Hex(b) && '.' !in Hex(b)
    decreases b
  {
    if b != [] {
      HexHasNoSlash(b[1..]);
      assert '/' !in HEX && '.' !in HEX;
    }
  }

  lemma PrefixedIsJoin(prefix: string, name: string)
    ensures "/" + prefix + "/" + name == Join([prefix] + Split(name))
  {
    SplitExact(name);
    JoinCons(prefix, Split(name));
    Assoc("/" + prefix, "/", name);
  }

  lemma PrefixedSlashFree(prefix: string, name: string)
    requires '/' !in prefix
    ensures SlashFree([prefix] + Split(name))
  {
    SplitExact(name);
  }

  lemma MetaIsJoin(name: string)
    ensures Render(MetaK(name)) == Join(["m"] + Split(name)) && SlashFree(["m"] + Split(name))
  {
    PrefixedIsJoin("m", name);
    PrefixedSlashFree("m", name);
  }

  lemma HeightIsJoin(prefix: string, h: nat)
    requires '/' !in prefix
    ensures HeightKey(prefix, h) == Join([prefix, Decimal(h)]) && SlashFree([prefix, Decimal(h)])
  {
    DecimalIsPlain(h);
    JoinTwo(prefix, Decimal(h));
  }

  lemma RenderIsJoin(k: Key)
    ensures Render(k) == Join(Segments(k)) && SlashFree(Segments(k)) && Segments(k) != []
  {
    match k
    case HeaderK(h) => HeightIsJoin("h", h);
    case DataK(h) => HeightIsJoin("d", h);
    case SignatureK(h) => HeightIsJoin("c", h);
    case StateK(h) => HeightIsJoin("s", h);
    case MetaK(name) => MetaIsJoin(name);
    case IndexK(hash) =>
      HexHasNoSlash(hash);
      JoinTwo("i", Hex(hash));
    case HeightK => assert ["t"][1..] == [];
  }

  lemma JoinTwo(a: string, b: string)
    ensures Join([a, b]) == "/" + a + "/" + b
  {
    assert [a, b][1..] == [b] && [b][1..] == [];
    assert Join([b]) == "/" + b;
  }

  /** The entry is determined by the resolved segments, and only by them. */
  lemma EntryIs(k: Key)
    ensures Entry(k) == PathOf(Resolve(Segments(k), []))
    ensures SlashFree(Resolve(Segments(k), [])) && AllPlain(Resolve(Segments(k), []))
  {
    RenderIsJoin(k);
    SplitJoin(Segments(k));
    assert ([""] + Segments(k))[1..] == Segments(k);
    ResolveIsPlain(Segments(k), []);
  }

  lemma JoinIsLong(segs: seq<string>)
    requires segs != [] && AllPlain(segs)
    ensures |Join(segs)| >= 2
  {
    assert Plain(segs[0]);
  }

  lemma PathInjective(a: seq<string>, b: seq<string>)
    requires SlashFree(a) && SlashFree(b) && AllPlain(a) && AllPlain(b) && PathOf(a) == PathOf(b)
    ensures a == b
  {
    if a != [] {
      JoinIsLong(a);
    }
    if b != [] {
      JoinIsLong(b);
    }
    if a != [] && b != [] {
      JoinInjective(a, b);
    }
  }

  /** Two keys share an entry if and only if their segments resolve to the same path. */
  lemma SharesEntryIff(a: Key, b: Key)
    ensures Entry(a) == Entry(b) <==> Resolve(Segments(a), []) == Resolve(Segments(b), [])
  {
    EntryIs(a);
    EntryIs(b);
    if Entry(a) == Entry(b) {
      PathInjective(Resolve(Segments(a), []), Resolve(Segments(b), []));
    }
  }

  /** A key reaches the entry that its own string names if and only if all its segments are plain. */
  lemma OwnEntryIff(k: Key)
    ensures Entry(k) == Render(k) <==> PlainKey(k)
  {
    EntryIs(k);
    RenderIsJoin(k);
    var resolved := Resolve(Segments(k), []);
    if PlainKey(k) {
      ResolveOfPlain(Segments(k), []);
      assert [] + Segments(k) == Segments(k);
    }
    if Entry(k) == Render(k) {
      assert |Join(Segments(k))| >= 2;
      assert resolved != [];
      JoinInjective(resolved, Segments(k));
    }
  }

  /** For metadata the condition is on the name. */
  lemma MetadataOwnEntryIff(name: string)
    ensures Entry(MetaK(name)) == Render(MetaK(name)) <==> PlainName(name)
  {
    OwnEntryIff(MetaK(name));
    var segs := Segments(MetaK(name));
    assert segs[0] == "m" && segs[1..] == Split(name);
    assert forall i :: 0 <= i < |Split(name)| ==> Split(name)[i] == segs[i + 1];
  }

  /** Every other key of the store is plain, an index key as soon as its hash is not empty. */
  lemma StoreKeysArePlain(k: Key)
    requires !k.MetaK? && (k.IndexK? ==> k.hash != [])
    ensures PlainKey(k)
  {
    if k.IndexK? {
      HexHasNoSlash(k.hash);
      assert Hex(k.hash)[0] != '.';
    } else if !k.HeightK? {
      DecimalIsPlain(k.height);
    }
  }

  /** The keys a batch writes reach the same entry with and without cleaning. */
  lemma BatchEntriesAgree(k: Key)
    requires !k.MetaK? && (k.IndexK? ==> k.hash != [])
    ensures Entry(k) == Render(k)
  {
    StoreKeysArePlain(k);
    OwnEntryIff(k);
  }

  /** Different plain keys never share an entry. */
  lemma PlainKeysAreApart(a: Key, b: Key)
    requires PlainKey(a) && PlainKey(b) && Entry(a) == Entry(b)
    ensures a == b
  {
    OwnEntryIff(a);
    OwnEntryIff(b);
    RenderInjective(a, b);
  }

  /** A metadata name that is not plain can reach a block: "../h/5" is the header of height 5. */
  lemma NameReachesHeader(h: nat)
    ensures Entry(MetaK("../h/" + Decimal(h))) == Entry(HeaderK(h))
  {
    DecimalIsPlain(h);
    var name := "../h/" + Decimal(h);
    assert name == ".." + "/" + ("h" + "/" + Decimal(h));
    SplitAfter("..", "h" + "/" + Decimal(h));
    SplitAfter("h", Decimal(h));
    SplitNoSlash(Decimal(h));
    var segs := Segments(MetaK(name));
    assert segs == ["m", ".."] + ["h", Decimal(h)];
    ResolveAppend(["m", ".."], ["h", Decimal(h)], []);
    assert ["m", ".."][1..] == [".."] && [".."][1..] == [] && ([] + ["m"])[..0] == [];
    assert Resolve(["m", ".."], []) == [];
    SharesEntryIff(MetaK(name), HeaderK(h));
  }

  /** Only ".." leads out of the metadata: without it the entry is not one of any other kind of key. */
  lemma NamesStayInMetadata(name: string, k: Key)
    requires ".." !in Split(name) && !k.MetaK? && (k.IndexK? ==> k.hash != [])
    ensures Entry(MetaK(name)) != Entry(k)
  {
    StoreKeysArePlain(k);
    ResolveOfPlain(Segments(k), []);
    assert [] + Segments(k) == Segments(k);
    ResolveAppend(["m"], Split(name), []);
    assert ["m"][1..] == [] && Resolve(["m"], []) == ["m"] by {
      assert [] + ["m"] == ["m"];
    }
    ResolveKeepsStack(Split(name), ["m"]);
    var resolved := Resolve(Segments(MetaK(name)), []);
    assert resolved[0] == "m" && Segments(k)[0] != "m";
    SharesEntryIff(MetaK(name), k);
  }

  // ---------------------------------------------------------------- the names the node uses

  /** The snapshot of the DA-inclusion cache of headers or of data. */
  function SnapshotName(kind: string): string {
    "cache" + "/" + (kind + "/" + "__snap")
  }

  /** The metadata names without a slash that the node writes. */
  predicate FixedName(name: string) {
    || name == "gdh" || name == DA_INCLUDED_HEIGHT || name == LAST_PRUNED_BLOCK_HEIGHT || name == "lst-prnd-s"
    || name == "last-submitted-header-height" || name == "last-submitted-data-height"
    || name == "pending_header" || name == "pending_data"
  }

  ghost predicate WrittenName(name: string) {
    || FixedName(name)
    || (exists kind :: name == SnapshotName(kind) && (kind == "header-da-included" || kind == "data-da-included"))
    || exists h: nat :: name == HeaderDAHeightName(h) || name == DataDAHeightName(h)
  }

  lemma FixedNameHasNoSlash(name: string)
    requires FixedName(name)
    ensures '/' !in name && name != "" && name[0] != '.'
  {
  }

  lemma FixedNamesArePlain(name: string)
    requires FixedName(name)
    ensures PlainName(name)
  {
    FixedNameHasNoSlash(name);
    SplitNoSlash(name);
  }

  lemma ThreeSegments(a: string, b: string, c: string)
    requires '/' !in a && '/' !in b && '/' !in c && Plain(a) && Plain(b) && Plain(c)
    ensures PlainName(a + "/" + (b + "/" + c))
  {
    SplitAfter(a, b + "/" + c);
    SplitAfter(b, c);
    SplitNoSlash(c);
  }

  lemma SnapshotNamesArePlain(kind: string)
    requires kind == "header-da-included" || kind == "data-da-included"
    ensures PlainName(SnapshotName(kind))
  {
    assert '/' !in kind && kind[0] != '.';
    ThreeSegments("cache", kind, "__snap");
  }

  lemma HeightNamesArePlain(h: nat)
    ensures PlainName(HeaderDAHeightName(h)) && PlainName(DataDAHeightName(h))
  {
    DecimalIsPlain(h);
    ThreeSegments("rhb", Decimal(h), "h");
    ThreeSegments("rhb", Decimal(h), "d");
    assert HeaderDAHeightName(h) == "rhb" + "/" + (Decimal(h) + "/" + "h");
    assert DataDAHeightName(h) == "rhb" + "/" + (Decimal(h) + "/" + "d");
  }

  /** All of them are plain, so each has an entry of its own. */
  lemma WrittenNamesArePlain(name: string)
    requires WrittenName(name)
    ensures PlainName(name)
  {
    if FixedName(name) {
      FixedNamesArePlain(name);
    } else if kind :| name == SnapshotName(kind) && (kind == "header-da-included" || kind == "data-da-included") {
      SnapshotNamesArePlain(kind);
    } else {
      var h: nat :| name == HeaderDAHeightName(h) || name == DataDAHeightName(h);
      HeightNamesArePlain(h);
    }
  }
}

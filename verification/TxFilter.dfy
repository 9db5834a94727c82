/** Filtering a batch by size (core/execution/dummy.go, apps/cosmos-exec/executor/executor.go): one
    round marks every transaction; the postponed ones come back in the next round. */
module TxFilter {
  import opened Basics

  datatype Status = FilterOK | FilterRemove | FilterPostpone

  /** The transactions of a round that got status `s`. */
  function With(s: Status, txs: seq<Bytes>, statuses: seq<Status>): (r: seq<Bytes>)
    requires |txs| == |statuses|
    ensures |r| <= |txs|
  {
    if txs == [] then []
    else
      var rest := With(s, txs[1..], statuses[1..]);
      if statuses[0] == s then [txs[0]] + rest else rest
  }

  function Size(txs: seq<Bytes>): nat {
    if txs == [] then 0 else |txs[0]| + Size(txs[1..])
  }

  /** A transaction that some block can take; `maxBytes` 0 means no limit. */
  predicate Fits(maxBytes: nat, tx: Bytes) {
    |tx| > 0 && (maxBytes > 0 ==> |tx| <= maxBytes)
  }

  predicate Oversize(maxBytes: nat, tx: Bytes) {
    maxBytes > 0 && |tx| > maxBytes
  }

  function Fitting(maxBytes: nat, txs: seq<Bytes>): seq<Bytes> {
    Filter(tx => Fits(maxBytes, tx), txs)
  }

  /** The dummy executor: once a transaction does not fit, everything after it waits. */
  function Dummy(txs: seq<Bytes>, maxBytes: nat, used: nat, limitReached: bool): (r: seq<Status>)
    ensures |r| == |txs|
  {
    if txs == [] then []
    else if !Fits(maxBytes, txs[0]) then [FilterRemove] + Dummy(txs[1..], maxBytes, used, limitReached)
    else if limitReached || (maxBytes > 0 && used + |txs[0]| > maxBytes) then
      [FilterPostpone] + Dummy(txs[1..], maxBytes, used, true)
    else [FilterOK] + Dummy(txs[1..], maxBytes, used + |txs[0]|, false)
  }

  /** The Cosmos executor: takes whatever still fits, and never removes an oversize transaction. */
  function Cosmos(txs: seq<Bytes>, maxBytes: nat, used: nat): (r: seq<Status>)
    ensures |r| == |txs|
  {
    if txs == [] then []
    else if txs[0] == [] then [FilterRemove] + Cosmos(txs[1..], maxBytes, used)
    else if maxBytes > 0 && used + |txs[0]| > maxBytes then [FilterPostpone] + Cosmos(txs[1..], maxBytes, used)
    else [FilterOK] + Cosmos(txs[1..], maxBytes, used + |txs[0]|)
  }

  // ---------------------------------------------------------------- one round

  lemma ConsFacts(tx: Bytes, rest: seq<Bytes>, keep: Bytes -> bool)
    ensures Size([tx] + rest) == |tx| + Size(rest)
    ensures Filter(keep, [tx] + rest) == if keep(tx) then [tx] + Filter(keep, rest) else Filter(keep, rest)
  {
    assert ([tx] + rest)[1..] == rest;
  }

  /** What the tail of a round sees after the first transaction. */
  function DummyTail(txs: seq<Bytes>, maxBytes: nat, used: nat, limitReached: bool): (r: seq<Status>)
    requires txs != []
    ensures |r| == |txs| - 1
    ensures r == Dummy(txs, maxBytes, used, limitReached)[1..]
  {
    if !Fits(maxBytes, txs[0]) then Dummy(txs[1..], maxBytes, used, limitReached)
    else if limitReached || (maxBytes > 0 && used + |txs[0]| > maxBytes) then Dummy(txs[1..], maxBytes, used, true)
    else Dummy(txs[1..], maxBytes, used + |txs[0]|, false)
  }

  function Accepted(txs: seq<Bytes>, statuses: seq<Status>): seq<Bytes>
    requires |txs| == |statuses|
  {
    With(FilterOK, txs, statuses)
  }

  function Postponed(txs: seq<Bytes>, statuses: seq<Status>): seq<Bytes>
    requires |txs| == |statuses|
  {
    With(FilterPostpone, txs, statuses)
  }

  /** How the three sequences of a round grow with its first transaction. */
  lemma DummyHead(txs: seq<Bytes>, maxBytes: nat, used: nat, limitReached: bool)
    requires txs != []
    ensures
      var st, tail := Dummy(txs, maxBytes, used, limitReached), DummyTail(txs, maxBytes, used, limitReached);
      var accepted, postponed := Accepted(txs[1..], tail), Postponed(txs[1..], tail);
      && Accepted(txs, st) == (if st[0] == FilterOK then [txs[0]] + accepted else accepted)
      && Postponed(txs, st) == (if st[0] == FilterPostpone then [txs[0]] + postponed else postponed)
      && Fitting(maxBytes, txs) ==
           (if Fits(maxBytes, txs[0]) then [txs[0]] + Fitting(maxBytes, txs[1..]) else Fitting(maxBytes, txs[1..]))
  {
    assert Dummy(txs, maxBytes, used, limitReached)[1..] == DummyTail(txs, maxBytes, used, limitReached);
  }

  lemma {:induction false} DummySplits(txs: seq<Bytes>, maxBytes: nat, used: nat, limitReached: bool)
    ensures
      var st := Dummy(txs, maxBytes, used, limitReached);
      && Accepted(txs, st) + Postponed(txs, st) == Fitting(maxBytes, txs)
      && (limitReached ==> Accepted(txs, st) == [])
      && (maxBytes == 0 && !limitReached ==> Postponed(txs, st) == [])
    decreases txs
  {
    if txs != [] {
      var fits := Fits(maxBytes, txs[0]);
      var stop := limitReached || (maxBytes > 0 && used + |txs[0]| > maxBytes);
      DummySplits(txs[1..], maxBytes, if fits && !stop then used + |txs[0]| else used, if fits then stop else limitReached);
      DummyHead(txs, maxBytes, used, limitReached);
      var tail := DummyTail(txs, maxBytes, used, limitReached);
      Join(Accepted(txs[1..], tail), Postponed(txs[1..], tail), txs[0]);
    }
  }

  lemma Join(a: seq<Bytes>, b: seq<Bytes>, tx: Bytes)
    ensures [tx] + a + b == [tx] + (a + b)
    ensures a == [] ==> a + ([tx] + b) == [tx] + (a + b)
  {
  }

  lemma {:induction false} DummyStaysWithin(txs: seq<Bytes>, maxBytes: nat, used: nat, limitReached: bool)
    requires maxBytes > 0 && used <= maxBytes
    ensures used + Size(Accepted(txs, Dummy(txs, maxBytes, used, limitReached))) <= maxBytes
    decreases txs
  {
    if txs != [] {
      var tail := DummyTail(txs, maxBytes, used, limitReached);
      assert Dummy(txs, maxBytes, used, limitReached)[1..] == tail;
      if !Fits(maxBytes, txs[0]) {
        DummyStaysWithin(txs[1..], maxBytes, used, limitReached);
      } else if limitReached || used + |txs[0]| > maxBytes {
        DummyStaysWithin(txs[1..], maxBytes, used, true);
      } else {
        DummyStaysWithin(txs[1..], maxBytes, used + |txs[0]|, false);
        ConsFacts(txs[0], Accepted(txs[1..], tail), tx => true);
      }
    }
  }

  lemma {:induction false} DummyAcceptsFirst(txs: seq<Bytes>, maxBytes: nat)
    requires Fitting(maxBytes, txs) != []
    ensures Accepted(txs, Dummy(txs, maxBytes, 0, false)) != []
    decreases txs
  {
    assert Dummy(txs, maxBytes, 0, false)[1..] == DummyTail(txs, maxBytes, 0, false);
    if !Fits(maxBytes, txs[0]) {
      DummyAcceptsFirst(txs[1..], maxBytes);
    }
  }

  /** A round of the dummy executor takes a prefix of what fits a block, as much as the limit allows
      and at least one transaction, and postpones the rest of it. */
  lemma DummyRound(txs: seq<Bytes>, maxBytes: nat)
    ensures
      var st := Dummy(txs, maxBytes, 0, false);
      && Accepted(txs, st) + Postponed(txs, st) == Fitting(maxBytes, txs)
      && (maxBytes > 0 ==> Size(Accepted(txs, st)) <= maxBytes)
      && (maxBytes == 0 ==> Postponed(txs, st) == [])
      && (Fitting(maxBytes, txs) != [] ==> Accepted(txs, st) != [])
  {
    DummySplits(txs, maxBytes, 0, false);
    if maxBytes > 0 {
      DummyStaysWithin(txs, maxBytes, 0, false);
    }
    if Fitting(maxBytes, txs) != [] {
      DummyAcceptsFirst(txs, maxBytes);
    }
  }

  /** What was accepted before the i-th transaction. */
  function AcceptedBefore(txs: seq<Bytes>, statuses: seq<Status>, i: nat): seq<Bytes>
    requires |txs| == |statuses| && i <= |txs|
  {
    Accepted(txs[..i], statuses[..i])
  }

  lemma AcceptedBeforeCons(txs: seq<Bytes>, statuses: seq<Status>, i: nat)
    requires |txs| == |statuses| && 0 < i <= |txs|
    ensures AcceptedBefore(txs, statuses, i)
            == (if statuses[0] == FilterOK then [txs[0]] else []) + AcceptedBefore(txs[1..], statuses[1..], i - 1)
  {
    assert txs[..i][1..] == txs[1..][..i - 1] && statuses[..i][1..] == statuses[1..][..i - 1];
    assert txs[..i][0] == txs[0] && statuses[..i][0] == statuses[0];
  }

  lemma SizeAppend(tx: Bytes, rest: seq<Bytes>, taken: bool)
    ensures Size((if taken then [tx] else []) + rest) == (if taken then |tx| else 0) + Size(rest)
  {
    if taken {
      assert ([tx] + rest)[1..] == rest;
    } else {
      assert [] + rest == rest;
    }
  }

  /** Each status of the dummy executor: removed exactly when no block can take the transaction,
      postponed exactly when one before it was, or when it exceeds what those accepted before it leave. */
  lemma {:induction false} DummyStatusIff(txs: seq<Bytes>, maxBytes: nat, used: nat, limitReached: bool, i: nat)
    requires i < |txs|
    ensures
      var st := Dummy(txs, maxBytes, used, limitReached);
      && (st[i] == FilterRemove <==> txs[i] == [] || (maxBytes > 0 && |txs[i]| > maxBytes))
      && (st[i] == FilterPostpone <==>
            txs[i] != [] && !(maxBytes > 0 && |txs[i]| > maxBytes)
            && (limitReached || (exists j :: 0 <= j < i && st[j] == FilterPostpone)
                || (maxBytes > 0 && used + Size(AcceptedBefore(txs, st, i)) + |txs[i]| > maxBytes)))
    decreases txs
  {
    var st, tail := Dummy(txs, maxBytes, used, limitReached), DummyTail(txs, maxBytes, used, limitReached);
    assert st[1..] == tail;
    if i > 0 {
      var stop := limitReached || (maxBytes > 0 && used + |txs[0]| > maxBytes);
      var fits := Fits(maxBytes, txs[0]);
      DummyStatusIff(txs[1..], maxBytes, if fits && !stop then used + |txs[0]| else used, if fits then stop else limitReached, i - 1);
      AcceptedBeforeCons(txs, st, i);
      SizeAppend(txs[0], AcceptedBefore(txs[1..], tail, i - 1), st[0] == FilterOK);
      PostponedBefore(st, tail, i);
    }
  }

  lemma PostponedBefore(st: seq<Status>, tail: seq<Status>, i: nat)
    requires 0 < i < |st| && tail == st[1..]
    ensures (exists j :: 0 <= j < i && st[j] == FilterPostpone) <==>
            st[0] == FilterPostpone || exists j :: 0 <= j < i - 1 && tail[j] == FilterPostpone
  {
    if j :| 0 <= j < i && st[j] == FilterPostpone && j > 0 {
      assert tail[j - 1] == FilterPostpone;
    }
    if j :| 0 <= j < i - 1 && tail[j] == FilterPostpone {
      assert st[j + 1] == FilterPostpone;
    }
  }

  /** Each status of the Cosmos executor: removed exactly when empty, postponed exactly when it exceeds
      what those accepted before it leave. */
  lemma {:induction false} CosmosStatusIff(txs: seq<Bytes>, maxBytes: nat, used: nat, i: nat)
    requires i < |txs|
    ensures
      var st := Cosmos(txs, maxBytes, used);
      && (st[i] == FilterRemove <==> txs[i] == [])
      && (st[i] == FilterPostpone <==>
            txs[i] != [] && maxBytes > 0 && used + Size(AcceptedBefore(txs, st, i)) + |txs[i]| > maxBytes)
    decreases txs
  {
    var st, tail := Cosmos(txs, maxBytes, used), CosmosTail(txs, maxBytes, used);
    assert st[1..] == tail;
    if i > 0 {
      CosmosStatusIff(txs[1..], maxBytes, if st[0] == FilterOK then used + |txs[0]| else used, i - 1);
      AcceptedBeforeCons(txs, st, i);
      SizeAppend(txs[0], AcceptedBefore(txs[1..], tail, i - 1), st[0] == FilterOK);
    }
  }

  function Blocked(maxBytes: nat, txs: seq<Bytes>): seq<Bytes> {
    Filter(tx => Oversize(maxBytes, tx), txs)
  }

  function CosmosTail(txs: seq<Bytes>, maxBytes: nat, used: nat): (r: seq<Status>)
    requires txs != []
    ensures |r| == |txs| - 1
    ensures r == Cosmos(txs, maxBytes, used)[1..]
  {
    if txs[0] == [] || (maxBytes > 0 && used + |txs[0]| > maxBytes) then Cosmos(txs[1..], maxBytes, used)
    else Cosmos(txs[1..], maxBytes, used + |txs[0]|)
  }

  lemma MovesOne(acc: seq<Bytes>, post: seq<Bytes>, all: seq<Bytes>, tx: Bytes)
    requires multiset(acc) + multiset(post) == multiset(all)
    ensures multiset([tx] + acc) + multiset(post) == multiset([tx] + all)
    ensures multiset(acc) + multiset([tx] + post) == multiset([tx] + all)
  {
  }

  /** How the three sequences of a round grow with its first transaction. */
  lemma CosmosHead(txs: seq<Bytes>, maxBytes: nat, used: nat)
    requires txs != []
    ensures
      var st, tail := Cosmos(txs, maxBytes, used), CosmosTail(txs, maxBytes, used);
      var accepted, postponed := Accepted(txs[1..], tail), Postponed(txs[1..], tail);
      && Accepted(txs, st) == (if st[0] == FilterOK then [txs[0]] + accepted else accepted)
      && Fitting(maxBytes, Postponed(txs, st)) ==
           (if st[0] == FilterPostpone && Fits(maxBytes, txs[0]) then [txs[0]] + Fitting(maxBytes, postponed)
            else Fitting(maxBytes, postponed))
      && Fitting(maxBytes, txs) ==
           (if Fits(maxBytes, txs[0]) then [txs[0]] + Fitting(maxBytes, txs[1..]) else Fitting(maxBytes, txs[1..]))
  {
    var tail := CosmosTail(txs, maxBytes, used);
    assert Cosmos(txs, maxBytes, used)[1..] == tail;
    ConsFacts(txs[0], Postponed(txs[1..], tail), tx => Fits(maxBytes, tx));
  }

  lemma {:induction false} CosmosSplits(txs: seq<Bytes>, maxBytes: nat, used: nat)
    requires maxBytes > 0 ==> used <= maxBytes
    ensures
      var st := Cosmos(txs, maxBytes, used);
      multiset(Accepted(txs, st)) + multiset(Fitting(maxBytes, Postponed(txs, st))) == multiset(Fitting(maxBytes, txs))
    decreases txs
  {
    if txs != [] {
      var takes := txs[0] != [] && !(maxBytes > 0 && used + |txs[0]| > maxBytes);
      CosmosSplits(txs[1..], maxBytes, if takes then used + |txs[0]| else used);
      CosmosHead(txs, maxBytes, used);
      var tail := CosmosTail(txs, maxBytes, used);
      MovesOne(Accepted(txs[1..], tail), Fitting(maxBytes, Postponed(txs[1..], tail)), Fitting(maxBytes, txs[1..]), txs[0]);
    }
  }

  lemma {:induction false} CosmosKeepsBlocked(txs: seq<Bytes>, maxBytes: nat, used: nat)
    ensures
      var postponed := Postponed(txs, Cosmos(txs, maxBytes, used));
      && Blocked(maxBytes, postponed) == Blocked(maxBytes, txs) && [] !in postponed
      && (maxBytes == 0 ==> postponed == [])
    decreases txs
  {
    if txs != [] {
      var tail := CosmosTail(txs, maxBytes, used);
      assert Cosmos(txs, maxBytes, used)[1..] == tail;
      ConsFacts(txs[0], Postponed(txs[1..], tail), tx => Oversize(maxBytes, tx));
      if txs[0] == [] || (maxBytes > 0 && used + |txs[0]| > maxBytes) {
        CosmosKeepsBlocked(txs[1..], maxBytes, used);
      } else {
        CosmosKeepsBlocked(txs[1..], maxBytes, used + |txs[0]|);
      }
    }
  }

  lemma {:induction false} CosmosStaysWithin(txs: seq<Bytes>, maxBytes: nat, used: nat)
    requires maxBytes > 0 && used <= maxBytes
    ensures used + Size(Accepted(txs, Cosmos(txs, maxBytes, used))) <= maxBytes
    decreases txs
  {
    if txs != [] {
      var tail := CosmosTail(txs, maxBytes, used);
      assert Cosmos(txs, maxBytes, used)[1..] == tail;
      if txs[0] == [] || used + |txs[0]| > maxBytes {
        CosmosStaysWithin(txs[1..], maxBytes, used);
      } else {
        CosmosStaysWithin(txs[1..], maxBytes, used + |txs[0]|);
        ConsFacts(txs[0], Accepted(txs[1..], tail), tx => true);
      }
    }
  }

  lemma {:induction false} CosmosAcceptsOne(txs: seq<Bytes>, maxBytes: nat)
    requires Fitting(maxBytes, txs) != []
    ensures Accepted(txs, Cosmos(txs, maxBytes, 0)) != []
    decreases txs
  {
    assert Cosmos(txs, maxBytes, 0)[1..] == CosmosTail(txs, maxBytes, 0);
    if !Fits(maxBytes, txs[0]) {
      CosmosAcceptsOne(txs[1..], maxBytes);
    }
  }

  /** A round of the Cosmos executor takes some of what fits a block, as much as the limit allows and
      at least one transaction; the rest of it and the oversize transactions are postponed. */
  lemma CosmosRound(txs: seq<Bytes>, maxBytes: nat)
    ensures
      var st := Cosmos(txs, maxBytes, 0);
      var accepted, postponed := Accepted(txs, st), Postponed(txs, st);
      && multiset(accepted) + multiset(Fitting(maxBytes, postponed)) == multiset(Fitting(maxBytes, txs))
      && Blocked(maxBytes, postponed) == Blocked(maxBytes, txs) && [] !in postponed
      && (maxBytes > 0 ==> Size(accepted) <= maxBytes)
      && (maxBytes == 0 ==> postponed == [])
      && (Fitting(maxBytes, txs) != [] ==> accepted != [])
  {
    CosmosSplits(txs, maxBytes, 0);
    CosmosKeepsBlocked(txs, maxBytes, 0);
    if maxBytes > 0 {
      CosmosStaysWithin(txs, maxBytes, 0);
    }
    if Fitting(maxBytes, txs) != [] {
      CosmosAcceptsOne(txs, maxBytes);
    }
  }

  // ---------------------------------------------------------------- draining

  /** The rounds of filtering a queue, re-filtering what is postponed until a round accepts nothing;
      the second component is what is left. */
  function DrainDummy(txs: seq<Bytes>, maxBytes: nat): (seq<seq<Bytes>>, seq<Bytes>)
    decreases |Fitting(maxBytes, txs)|
  {
    var st := Dummy(txs, maxBytes, 0, false);
    var accepted, postponed := Accepted(txs, st), Postponed(txs, st);
    DummyRound(txs, maxBytes);
    if accepted == [] then ([], postponed)
    else
      FittingShrinks(maxBytes, accepted, postponed, txs);
      var next := DrainDummy(postponed, maxBytes);
      ([accepted] + next.0, next.1)
  }

  lemma FittingShrinks(maxBytes: nat, accepted: seq<Bytes>, postponed: seq<Bytes>, txs: seq<Bytes>)
    requires accepted + postponed == Fitting(maxBytes, txs)
    ensures Fitting(maxBytes, postponed) == postponed
    ensures |postponed| == |Fitting(maxBytes, txs)| - |accepted|
  {
    FilterIdempotent(maxBytes, txs);
    AllFit(maxBytes, accepted, postponed);
  }

  lemma {:induction false} FilterIdempotent(maxBytes: nat, txs: seq<Bytes>)
    ensures forall tx :: tx in Fitting(maxBytes, txs) ==> Fits(maxBytes, tx)
    decreases txs
  {
    if txs != [] {
      FilterIdempotent(maxBytes, txs[1..]);
    }
  }

  lemma {:induction false} AllFit(maxBytes: nat, before: seq<Bytes>, txs: seq<Bytes>)
    requires forall tx :: tx in before + txs ==> Fits(maxBytes, tx)
    ensures Fitting(maxBytes, txs) == txs
    decreases txs
  {
    if txs != [] {
      assert txs[0] in before + txs;
      assert before + txs == before + [txs[0]] + txs[1..];
      AllFit(maxBytes, before + [txs[0]], txs[1..]);
    }
  }

  /** The dummy executor accepts every transaction that fits a block exactly once and in the original
      order, keeps every round within the limit, and needs at most one round per transaction. */
  lemma {:induction false} DummyDrains(txs: seq<Bytes>, maxBytes: nat)
    ensures
      var (rounds, rest) := DrainDummy(txs, maxBytes);
      && Flatten(rounds) == Fitting(maxBytes, txs) && rest == []
      && |rounds| <= |Fitting(maxBytes, txs)|
      && (maxBytes > 0 ==> forall i :: 0 <= i < |rounds| ==> Size(rounds[i]) <= maxBytes)
    decreases |Fitting(maxBytes, txs)|
  {
    var st := Dummy(txs, maxBytes, 0, false);
    var accepted, postponed := Accepted(txs, st), Postponed(txs, st);
    DummyRound(txs, maxBytes);
    if accepted != [] {
      FittingShrinks(maxBytes, accepted, postponed, txs);
      DummyDrains(postponed, maxBytes);
    }
  }

  function DrainCosmos(txs: seq<Bytes>, maxBytes: nat): (seq<seq<Bytes>>, seq<Bytes>)
    decreases |Fitting(maxBytes, txs)|
  {
    var st := Cosmos(txs, maxBytes, 0);
    var accepted, postponed := Accepted(txs, st), Postponed(txs, st);
    CosmosRound(txs, maxBytes);
    if accepted == [] then ([], postponed)
    else
      FewerLeft(maxBytes, accepted, postponed, txs);
      var next := DrainCosmos(postponed, maxBytes);
      ([accepted] + next.0, next.1)
  }

  lemma FewerLeft(maxBytes: nat, accepted: seq<Bytes>, postponed: seq<Bytes>, txs: seq<Bytes>)
    requires multiset(accepted) + multiset(Fitting(maxBytes, postponed)) == multiset(Fitting(maxBytes, txs))
    ensures |Fitting(maxBytes, postponed)| == |Fitting(maxBytes, txs)| - |accepted|
  {
    assert |multiset(accepted) + multiset(Fitting(maxBytes, postponed))| == |accepted| + |Fitting(maxBytes, postponed)|;
    assert |multiset(Fitting(maxBytes, txs))| == |Fitting(maxBytes, txs)|;
  }

  lemma {:induction false} NothingFits(maxBytes: nat, txs: seq<Bytes>)
    requires Fitting(maxBytes, txs) == [] && [] !in txs
    ensures Blocked(maxBytes, txs) == txs
    decreases txs
  {
    if txs != [] {
      assert txs[0] in txs;
      assert forall tx :: tx in txs[1..] ==> tx in txs;
      NothingFits(maxBytes, txs[1..]);
    }
  }

  /** The Cosmos executor accepts every transaction that fits a block exactly once within the limit of
      each round, in at most one round per transaction; the oversize ones, and nothing else, stay
      postponed for good. */
  lemma {:induction false} CosmosDrains(txs: seq<Bytes>, maxBytes: nat)
    ensures
      var (rounds, rest) := DrainCosmos(txs, maxBytes);
      && multiset(Flatten(rounds)) == multiset(Fitting(maxBytes, txs))
      && rest == Blocked(maxBytes, txs)
      && |rounds| <= |Fitting(maxBytes, txs)|
      && (maxBytes > 0 ==> forall i :: 0 <= i < |rounds| ==> Size(rounds[i]) <= maxBytes)
    decreases |Fitting(maxBytes, txs)|
  {
    var st := Cosmos(txs, maxBytes, 0);
    var accepted, postponed := Accepted(txs, st), Postponed(txs, st);
    CosmosRound(txs, maxBytes);
    FewerLeft(maxBytes, accepted, postponed, txs);
    if accepted == [] {
      NothingFits(maxBytes, postponed);
    } else {
      CosmosDrains(postponed, maxBytes);
      var next := DrainCosmos(postponed, maxBytes);
      assert Flatten([accepted] + next.0) == accepted + Flatten(next.0);
    }
  }

  // ---------------------------------------------------------------- order

  /** Seen from the sizes alone: after a fitting transaction that exceeded the room left (`waiting`),
      a later one is still within it. */
  predicate Overtakes(txs: seq<Bytes>, maxBytes: nat, used: nat, waiting: bool) {
    if txs == [] then false
    else if !Fits(maxBytes, txs[0]) then Overtakes(txs[1..], maxBytes, used, waiting)
    else if maxBytes > 0 && used + |txs[0]| > maxBytes then Overtakes(txs[1..], maxBytes, used, true)
    else waiting || Overtakes(txs[1..], maxBytes, used + |txs[0]|, false)
  }

  lemma {:induction false} WaitingOvertakesIff(txs: seq<Bytes>, maxBytes: nat, used: nat)
    requires maxBytes > 0 ==> used <= maxBytes
    ensures
      var accepted := Accepted(txs, Cosmos(txs, maxBytes, used));
      && (Overtakes(txs, maxBytes, used, true) <==> accepted != [])
      && (accepted != [] && maxBytes > 0 ==> used + |accepted[0]| <= maxBytes)
    decreases txs
  {
    if txs != [] {
      CosmosHead(txs, maxBytes, used);
      if txs[0] == [] || (maxBytes > 0 && used + |txs[0]| > maxBytes) {
        WaitingOvertakesIff(txs[1..], maxBytes, used);
      }
    }
  }

  lemma {:induction false} NothingAccepted(txs: seq<Bytes>, maxBytes: nat, used: nat)
    requires maxBytes > 0 ==> used <= maxBytes
    requires Accepted(txs, Cosmos(txs, maxBytes, used)) == []
    ensures Fitting(maxBytes, Postponed(txs, Cosmos(txs, maxBytes, used))) == Fitting(maxBytes, txs)
    decreases txs
  {
    if txs != [] {
      CosmosHead(txs, maxBytes, used);
      NothingAccepted(txs[1..], maxBytes, used);
    }
  }

  /** What a round accepts is a prefix of what fits a block exactly when nothing overtakes, and then
      the fitting transactions it postpones are the rest, in order. */
  lemma {:induction false} RoundKeepsOrderIff(txs: seq<Bytes>, maxBytes: nat, used: nat)
    requires maxBytes > 0 ==> used <= maxBytes
    ensures
      var st := Cosmos(txs, maxBytes, used);
      var accepted, later, fits := Accepted(txs, st), Fitting(maxBytes, Postponed(txs, st)), Fitting(maxBytes, txs);
      && (accepted <= fits <==> !Overtakes(txs, maxBytes, used, false))
      && (accepted + later == fits <==> !Overtakes(txs, maxBytes, used, false))
    decreases txs
  {
    if txs != [] {
      CosmosHead(txs, maxBytes, used);
      var tail := CosmosTail(txs, maxBytes, used);
      var accepted, later := Accepted(txs[1..], tail), Fitting(maxBytes, Postponed(txs[1..], tail));
      if !Fits(maxBytes, txs[0]) {
        RoundKeepsOrderIff(txs[1..], maxBytes, used);
      } else if maxBytes > 0 && used + |txs[0]| > maxBytes {
        WaitingOvertakesIff(txs[1..], maxBytes, used);
        if accepted == [] {
          NothingAccepted(txs[1..], maxBytes, used);
          assert accepted + ([txs[0]] + later) == [txs[0]] + Fitting(maxBytes, txs[1..]);
        } else {
          assert (accepted + ([txs[0]] + later))[0] == accepted[0] != txs[0];
        }
      } else {
        RoundKeepsOrderIff(txs[1..], maxBytes, used + |txs[0]|);
        ConsOrder(txs[0], accepted, later, Fitting(maxBytes, txs[1..]));
      }
    }
  }

  lemma ConsOrder(tx: Bytes, a: seq<Bytes>, b: seq<Bytes>, fits: seq<Bytes>)
    ensures [tx] + a <= [tx] + fits <==> a <= fits
    ensures [tx] + a + b == [tx] + fits <==> a + b == fits
  {
    assert [tx] + a + b == [tx] + (a + b);
    assert ([tx] + (a + b))[1..] == a + b && ([tx] + fits)[1..] == fits && ([tx] + a)[1..] == a;
  }

  /** How many transactions at the front fit the room together. */
  function Lead(txs: seq<Bytes>, maxBytes: nat, used: nat): (n: nat)
    ensures n <= |txs|
  {
    if txs == [] || (maxBytes > 0 && used + |txs[0]| > maxBytes) then 0
    else 1 + Lead(txs[1..], maxBytes, used + |txs[0]|)
  }

  /** Cutting the fitting transactions into blocks front to back, some block is overtaken into. */
  predicate EverOvertakes(fits: seq<Bytes>, maxBytes: nat)
    decreases |fits|
  {
    var n := Lead(fits, maxBytes, 0);
    n > 0 && (Overtakes(fits, maxBytes, 0, false) || EverOvertakes(fits[n..], maxBytes))
  }

  lemma {:induction false} OvertakesOfFitting(txs: seq<Bytes>, maxBytes: nat, used: nat, waiting: bool)
    ensures Overtakes(txs, maxBytes, used, waiting) == Overtakes(Fitting(maxBytes, txs), maxBytes, used, waiting)
    decreases txs
  {
    if txs != [] {
      var rest := Fitting(maxBytes, txs[1..]);
      assert ([txs[0]] + rest)[1..] == rest;
      if !Fits(maxBytes, txs[0]) {
        OvertakesOfFitting(txs[1..], maxBytes, used, waiting);
      } else if maxBytes > 0 && used + |txs[0]| > maxBytes {
        OvertakesOfFitting(txs[1..], maxBytes, used, true);
      } else {
        OvertakesOfFitting(txs[1..], maxBytes, used + |txs[0]|, false);
      }
    }
  }

  lemma {:induction false} LeadIsAccepted(txs: seq<Bytes>, maxBytes: nat, used: nat)
    requires (maxBytes > 0 ==> used <= maxBytes) && !Overtakes(txs, maxBytes, used, false)
    ensures |Accepted(txs, Cosmos(txs, maxBytes, used))| == Lead(Fitting(maxBytes, txs), maxBytes, used)
    decreases txs
  {
    if txs != [] {
      CosmosHead(txs, maxBytes, used);
      var rest := Fitting(maxBytes, txs[1..]);
      assert ([txs[0]] + rest)[1..] == rest;
      if !Fits(maxBytes, txs[0]) {
        LeadIsAccepted(txs[1..], maxBytes, used);
      } else if maxBytes > 0 && used + |txs[0]| > maxBytes {
        WaitingOvertakesIff(txs[1..], maxBytes, used);
      } else {
        LeadIsAccepted(txs[1..], maxBytes, used + |txs[0]|);
      }
    }
  }

  /** Re-filtering the postponed transactions delivers what fits a block in its original order
      exactly when nothing ever overtakes, for every queue and limit. */
  lemma {:induction false} CosmosKeepsOrderIff(txs: seq<Bytes>, maxBytes: nat)
    ensures Flatten(DrainCosmos(txs, maxBytes).0) == Fitting(maxBytes, txs)
            <==> !EverOvertakes(Fitting(maxBytes, txs), maxBytes)
    decreases |Fitting(maxBytes, txs)|
  {
    var st := Cosmos(txs, maxBytes, 0);
    var accepted, postponed, fits := Accepted(txs, st), Postponed(txs, st), Fitting(maxBytes, txs);
    var later := Fitting(maxBytes, postponed);
    CosmosRound(txs, maxBytes);
    FewerLeft(maxBytes, accepted, postponed, txs);
    RoundKeepsOrderIff(txs, maxBytes, 0);
    OvertakesOfFitting(txs, maxBytes, 0, false);
    if accepted != [] {
      var next := DrainCosmos(postponed, maxBytes).0;
      assert Flatten([accepted] + next) == accepted + Flatten(next) by {
        assert ([accepted] + next)[1..] == next;
      }
      if Overtakes(txs, maxBytes, 0, false) {
        FrontFits(fits, maxBytes, txs);
        assert accepted <= accepted + Flatten(next);
      } else {
        LeadIsAccepted(txs, maxBytes, 0);
        assert accepted + later == fits && fits[|accepted|..] == later;
        CosmosKeepsOrderIff(postponed, maxBytes);
        SamePrefix(accepted, Flatten(next), later);
      }
    }
  }

  lemma FrontFits(fits: seq<Bytes>, maxBytes: nat, txs: seq<Bytes>)
    requires fits == Fitting(maxBytes, txs) && fits != []
    ensures Lead(fits, maxBytes, 0) > 0
  {
    FilterIdempotent(maxBytes, txs);
    assert fits[0] in fits;
  }

  lemma SamePrefix(a: seq<Bytes>, b: seq<Bytes>, c: seq<Bytes>)
    ensures a + b == a + c <==> b == c
  {
    assert (a + b)[|a|..] == b && (a + c)[|a|..] == c;
  }

  /** An instance: a small transaction overtakes one that has to wait. */
  lemma CosmosReorders(a: Bytes, b: Bytes, c: Bytes)
    requires |a| == 2 && |b| == 2 && |c| == 1
    ensures
      var txs := [a, b, c];
      var st := Cosmos(txs, 3, 0);
      Overtakes(txs, 3, 0, false) && Accepted(txs, st) == [a, c] && Postponed(txs, st) == [b]
  {
    var abc, bc := [a, b, c], [b, c];
    assert abc[1..] == bc && bc[1..] == [c];
    assert Overtakes([c], 3, 2, true) && Overtakes(bc, 3, 2, false);
    assert Cosmos([c], 3, 2) == [FilterOK] && Cosmos(bc, 3, 2) == [FilterPostpone, FilterOK];
    assert Cosmos(abc, 3, 0) == [FilterOK, FilterPostpone, FilterOK];
    assert With(FilterOK, [c], [FilterOK]) == [c] && With(FilterPostpone, [c], [FilterOK]) == [];
    var st := [FilterOK, FilterPostpone, FilterOK];
    assert st[1..] == [FilterPostpone, FilterOK] && st[1..][1..] == [FilterOK];
    assert With(FilterOK, bc, st[1..]) == [c] && With(FilterPostpone, bc, st[1..]) == [b];
    assert Accepted(abc, st) == [a] + [c];
  }

  // ---------------------------------------------------------------- the loops

  lemma DummyAt(txs: seq<Bytes>, i: nat, maxBytes: nat, used: nat, limit: bool, s: Status, used': nat, limit': bool)
    requires i < |txs|
    requires
      var size := |txs[i]|;
      if !Fits(maxBytes, txs[i]) then s == FilterRemove && used' == used && limit' == limit
      else if limit || (maxBytes > 0 && used + size > maxBytes) then s == FilterPostpone && used' == used && limit'
      else s == FilterOK && used' == used + size && !limit'
    ensures Dummy(txs[i..], maxBytes, used, limit) == [s] + Dummy(txs[i + 1..], maxBytes, used', limit')
  {
    assert txs[i..][1..] == txs[i + 1..];
  }

  lemma CosmosAt(txs: seq<Bytes>, i: nat, maxBytes: nat, used: nat, s: Status, used': nat)
    requires i < |txs|
    requires
      var size := |txs[i]|;
      if size == 0 then s == FilterRemove && used' == used
      else if maxBytes > 0 && used + size > maxBytes then s == FilterPostpone && used' == used
      else s == FilterOK && used' == used + size
    ensures Cosmos(txs[i..], maxBytes, used) == [s] + Cosmos(txs[i + 1..], maxBytes, used')
  {
    assert txs[i..][1..] == txs[i + 1..];
  }

  method DummyFilterTxs(txs: seq<Bytes>, maxBytes: nat) returns (result: array<Status>)
    ensures result[..] == Dummy(txs, maxBytes, 0, false)
  {
    result := new Status[|txs|](_ => FilterOK);
    ghost var full := Dummy(txs, maxBytes, 0, false);
    var cumulativeBytes: nat, limitReached := 0, false;
    for i := 0 to |txs|
      invariant result[..i] == full[..i]
      invariant full[i..] == Dummy(txs[i..], maxBytes, cumulativeBytes, limitReached)
    {
      ghost var done, used, limit := result[..i], cumulativeBytes, limitReached;
      var txBytes := |txs[i]|;
      if txBytes == 0 {
        result[i] := FilterRemove;
      } else if maxBytes > 0 && txBytes > maxBytes {
        result[i] := FilterRemove;
      } else if limitReached {
        result[i] := FilterPostpone;
      } else if maxBytes > 0 && cumulativeBytes + txBytes > maxBytes {
        limitReached := true;
        result[i] := FilterPostpone;
      } else {
        cumulativeBytes := cumulativeBytes + txBytes;
        result[i] := FilterOK;
      }
      DummyAt(txs, i, maxBytes, used, limit, result[i], cumulativeBytes, limitReached);
      assert full[i] == full[i..][0] && full[i + 1..] == full[i..][1..];
      assert result[..i + 1] == done + [result[i]];
    }
    assert result[..|txs|] == result[..];
  }

  method CosmosFilterTxs(txs: seq<Bytes>, maxBytes: nat) returns (statuses: array<Status>)
    ensures statuses[..] == Cosmos(txs, maxBytes, 0)
  {
    statuses := new Status[|txs|](_ => FilterOK);
    ghost var full := Cosmos(txs, maxBytes, 0);
    var cumulativeBytes: nat := 0;
    for i := 0 to |txs|
      invariant statuses[..i] == full[..i]
      invariant full[i..] == Cosmos(txs[i..], maxBytes, cumulativeBytes)
    {
      ghost var done, used := statuses[..i], cumulativeBytes;
      var txLen := |txs[i]|;
      if txLen == 0 {
        statuses[i] := FilterRemove;
      } else if maxBytes > 0 && cumulativeBytes + txLen > maxBytes {
        statuses[i] := FilterPostpone;
      } else {
        statuses[i] := FilterOK;
        cumulativeBytes := cumulativeBytes + txLen;
      }
      CosmosAt(txs, i, maxBytes, used, statuses[i], cumulativeBytes);
      assert full[i] == full[i..][0] && full[i + 1..] == full[i..][1..];
      assert statuses[..i + 1] == done + [statuses[i]];
    }
    assert statuses[..|txs|] == statuses[..];
  }
}

/** Headers, block data and the rolling chain state (types/state.go), with the
    sequence check that every produced or synced header has to pass. */
module Chain {
  import opened Basics

  type Hash = Bytes
  type Root = Bytes
  type Tx = Bytes

  datatype Version = Version(blockVersion: nat, app: nat)

  datatype Header = Header(
    version: Version, chainId: string, height: nat, time: nat,
    lastHeaderHash: Hash, dataHash: Hash, appHash: Root, validatorHash: Hash, proposer: Bytes)

  datatype Data = Data(chainId: string, height: nat, time: nat, lastDataHash: Hash, txs: seq<Tx>)

  datatype ChainState = ChainState(
    version: Version, chainId: string, initialHeight: nat, lastBlockHeight: nat, lastBlockTime: int,
    lastHeaderHash: Hash, daHeight: nat, appHash: Root)

  /** `header.Time()`: the unsigned nanosecond field read as a signed instant. */
  function HeaderTime(h: Header): int {
    ToInt64(h.time)
  }

  function NextState(s: ChainState, h: Header, root: Root, hash: Header -> Hash): ChainState {
    ChainState(s.version, s.chainId, s.initialHeight, h.height, HeaderTime(h), hash(h), s.daHeight, root)
  }

  datatype SeqError = BadChainId | BadHeight | BadTime | BadLastHeaderHash | BadAppHash

  /** Verdict on one header together with the process-wide mismatch counter afterwards. */
  datatype Verdict = Verdict(error: Option<SeqError>, count: nat)

  function CheckSequence(s: ChainState, h: Header, count: nat): Verdict {
    if h.chainId != s.chainId then Verdict(Some(BadChainId), count)
    else if s.lastHeaderHash == [] then Verdict(None, count)
    else if h.height != s.lastBlockHeight + 1 then Verdict(Some(BadHeight), count)
    else if s.lastBlockTime > HeaderTime(h) then Verdict(Some(BadTime), count)
    else if h.lastHeaderHash != s.lastHeaderHash && count == 1 then Verdict(Some(BadLastHeaderHash), count)
    else
      var count' := if h.lastHeaderHash != s.lastHeaderHash then Max(count, 1) else count;
      if h.appHash != s.appHash then Verdict(Some(BadAppHash), count') else Verdict(None, count')
  }

  /** The package-level `basedSequencerTracking` and `lastHeaderHashErrCount`, which
      outlive every State value of the process. */
  class SequenceGuard {
    var onceDone: bool
    var errCount: nat

    ghost predicate Valid() reads this {
      errCount == if onceDone then 1 else 0
    }

    constructor ()
      ensures Valid() && errCount == 0
    {
      onceDone, errCount := false, 0;
    }

    method AssertValidSequence(s: ChainState, h: Header) returns (err: Option<SeqError>)
      requires Valid()
      modifies this
      ensures Valid()
      ensures Verdict(err, errCount) == CheckSequence(s, h, old(errCount))
    {
      if h.chainId != s.chainId {
        return Some(BadChainId);
      }
      if |s.lastHeaderHash| == 0 {
        return None;
      }
      if h.height != s.lastBlockHeight + 1 {
        return Some(BadHeight);
      }
      if s.lastBlockTime > HeaderTime(h) {
        return Some(BadTime);
      }
      if h.lastHeaderHash != s.lastHeaderHash {
        if errCount == 1 {
          return Some(BadLastHeaderHash);
        }
        if !onceDone {
          onceDone := true;
          errCount := errCount + 1;
        }
      }
      if h.appHash != s.appHash {
        return Some(BadAppHash);
      }
      return None;
    }
  }

  /** One accepted header and the root its execution produced. */
  datatype Accepted = Accepted(header: Header, root: Root)

  datatype Progress = Progress(accepted: seq<Accepted>, state: ChainState, count: nat)

  /** Offers one header to the chain: a rejected header leaves the state alone. */
  function Offer(p: Progress, a: Accepted, hash: Header -> Hash): Progress {
    var v := CheckSequence(p.state, a.header, p.count);
    if v.error.Some? then p.(count := v.count)
    else Progress(p.accepted + [a], NextState(p.state, a.header, a.root, hash), v.count)
  }

  /** Offers a whole list of headers, in order, starting from state `s`. */
  function Feed(s: ChainState, count: nat, offers: seq<Accepted>, hash: Header -> Hash): Progress {
    if offers == [] then Progress([], s, count)
    else Offer(Feed(s, count, offers[..|offers| - 1], hash), offers[|offers| - 1], hash)
  }

  /** `b` may directly follow `a`, the hash link aside. */
  ghost predicate Follows(a: Accepted, b: Accepted) {
    && b.header.height == a.header.height + 1
    && HeaderTime(a.header) <= HeaderTime(b.header)
    && b.header.appHash == a.root
    && b.header.chainId == a.header.chainId
  }

  ghost predicate Sequenced(c: seq<Accepted>) {
    forall i :: 0 < i < |c| ==> Follows(c[i - 1], c[i])
  }

  /** How many accepted headers do not carry their predecessor's hash. */
  function BrokenLinks(c: seq<Accepted>, hash: Header -> Hash): nat {
    if |c| <= 1 then 0
    else BrokenLinks(c[..|c| - 1], hash)
         + (if c[|c| - 1].header.lastHeaderHash != hash(c[|c| - 2].header) then 1 else 0)
  }

  ghost predicate ProgressInv(p: Progress, chainId: string, hash: Header -> Hash) {
    && p.count <= 1
    && p.state.chainId == chainId
    && Sequenced(p.accepted)
    && BrokenLinks(p.accepted, hash) <= p.count
    && (p.accepted != [] ==>
          var last := p.accepted[|p.accepted| - 1];
          && last.header.chainId == chainId
          && p.state.lastBlockHeight == last.header.height
          && p.state.lastBlockTime == HeaderTime(last.header)
          && p.state.lastHeaderHash == hash(last.header)
          && p.state.appHash == last.root)
  }

  lemma SequencedSnoc(c: seq<Accepted>, a: Accepted)
    requires Sequenced(c) && (c != [] ==> Follows(c[|c| - 1], a))
    ensures Sequenced(c + [a])
  {
    var d := c + [a];
    forall i | 0 < i < |d| ensures Follows(d[i - 1], d[i]) {
      if i == |c| {
        assert d[i] == a && d[i - 1] == c[i - 1];
      } else {
        assert d[i] == c[i] && d[i - 1] == c[i - 1];
      }
    }
  }

  lemma BrokenLinksSnoc(c: seq<Accepted>, a: Accepted, hash: Header -> Hash)
    ensures BrokenLinks(c + [a], hash) == BrokenLinks(c, hash)
              + (if c != [] && a.header.lastHeaderHash != hash(c[|c| - 1].header) then 1 else 0)
  {
    var d := c + [a];
    if c != [] {
      assert d[..|d| - 1] == c;
      assert d[|d| - 1] == a && d[|d| - 2] == c[|c| - 1];
    }
  }

  lemma OfferKeepsProgress(p: Progress, a: Accepted, chainId: string, hash: Header -> Hash)
    requires ProgressInv(p, chainId, hash) && forall h :: hash(h) != []
    ensures ProgressInv(Offer(p, a, hash), chainId, hash)
  {
    var v := CheckSequence(p.state, a.header, p.count);
    if v.error.None? {
      if p.accepted != [] {
        assert hash(p.accepted[|p.accepted| - 1].header) != [];
      }
      SequencedSnoc(p.accepted, a);
      BrokenLinksSnoc(p.accepted, a, hash);
    }
  }

  /** Chain validity over whole runs: whatever headers are offered, in whatever order, the
      accepted ones form one chain, and at most one of them breaks the hash link. */
  lemma {:induction false} AcceptedHeadersFormAChain(
      s: ChainState, count: nat, offers: seq<Accepted>, hash: Header -> Hash)
    requires count <= 1 && forall h :: hash(h) != []
    ensures ProgressInv(Feed(s, count, offers, hash), s.chainId, hash)
    ensures Sequenced(Feed(s, count, offers, hash).accepted)
    ensures BrokenLinks(Feed(s, count, offers, hash).accepted, hash) <= 1
  {
    if offers != [] {
      AcceptedHeadersFormAChain(s, count, offers[..|offers| - 1], hash);
      OfferKeepsProgress(Feed(s, count, offers[..|offers| - 1], hash), offers[|offers| - 1], s.chainId, hash);
    }
  }

  /** Accepted calls whose header does not carry the last header hash of the state it was
      checked against. The calls may belong to unrelated states. */
  function Waivers(calls: seq<(ChainState, Header)>, count: nat): nat {
    if calls == [] then 0
    else
      var (s, h) := calls[0];
      var v := CheckSequence(s, h, count);
      (if v.error.None? && s.lastHeaderHash != [] && h.lastHeaderHash != s.lastHeaderHash then 1 else 0)
      + Waivers(calls[1..], v.count)
  }

  /** The waiver is granted at most once per process, over any calls on any states, and
      never again once the counter is spent. */
  lemma {:induction false} OneWaiverPerProcess(calls: seq<(ChainState, Header)>, count: nat)
    requires count <= 1
    ensures Waivers(calls, count) <= 1 - count
  {
    if calls != [] {
      var (s, h) := calls[0];
      OneWaiverPerProcess(calls[1..], CheckSequence(s, h, count).count);
    }
  }

  /** Everything about the header but the hash link and the app hash fits the state. */
  predicate InOrder(s: ChainState, h: Header) {
    h.chainId == s.chainId && h.height == s.lastBlockHeight + 1 && s.lastBlockTime <= HeaderTime(h)
  }

  /** A header is accepted if and only if it belongs to the chain and, once the state has a header to
      follow, comes next, not earlier, on the right app hash, and on the right hash unless the waiver is
      still there. The waiver is spent by a wrong hash on a header otherwise in order. */
  lemma AcceptedIff(s: ChainState, h: Header, count: nat)
    requires count <= 1
    ensures
      var v := CheckSequence(s, h, count);
      && (v.error.None? <==>
            if s.lastHeaderHash == [] then h.chainId == s.chainId
            else InOrder(s, h) && h.appHash == s.appHash && (h.lastHeaderHash == s.lastHeaderHash || count == 0))
      && (v.count == 1 <==>
            count == 1 || (s.lastHeaderHash != [] && InOrder(s, h) && h.lastHeaderHash != s.lastHeaderHash))
      && v.count <= 1
  {
  }

  /** The first header in order with a wrong hash also has the right app hash. */
  predicate WaiverGranted(calls: seq<(ChainState, Header)>) {
    calls != [] &&
    (var (s, h) := calls[0];
     if s.lastHeaderHash != [] && InOrder(s, h) && h.lastHeaderHash != s.lastHeaderHash then h.appHash == s.appHash
     else WaiverGranted(calls[1..]))
  }

  /** The waiver really is granted, once, and to the first header that needs it: it goes unused exactly
      when that header fails on its app hash, or when there is none. */
  lemma {:induction false} WaiverGrantedIff(calls: seq<(ChainState, Header)>)
    ensures Waivers(calls, 0) == if WaiverGranted(calls) then 1 else 0
  {
    if calls != [] {
      var (s, h) := calls[0];
      AcceptedIff(s, h, 0);
      var v := CheckSequence(s, h, 0);
      if v.count == 1 {
        OneWaiverPerProcess(calls[1..], 1);
      } else {
        WaiverGrantedIff(calls[1..]);
      }
    }
  }
}

/** heightSub (pkg/store/store_adapter.go): waiting for a height to be stored. The machine below
    interleaves the atomic store and the locked notification of SetHeight calls with the two halves
    of Wait's locked section: the height is read under the mutex, but SetHeight stores it without
    taking the mutex, so a store may fall between the check and the registration. */
module HeightSub {
  import opened Basics

  type Chan = nat

  /** `waiting` and `closed` map each channel to the height it stands for; `checked` is the target of
      the Wait call that holds the mutex after having found the height too low; `inflight` are the
      heights stored by SetHeight calls that have not notified yet; `reached` is history. */
  datatype Sub = Sub(
    height: nat, waiting: map<Chan, nat>, closed: map<Chan, nat>, checked: Option<nat>,
    inflight: multiset<nat>, next: Chan, reached: set<nat>)

  datatype Label = StoreHeight(h: nat) | Notify(h: nat) | Check(target: nat) | Register

  function NewSub(initial: nat): Sub {
    Sub(initial, map[], map[], None, multiset{}, 0, {initial})
  }

  /** Channels that a notification up to `h` closes. */
  function Due(s: Sub, h: nat): map<Chan, nat> {
    map c | c in s.waiting && s.waiting[c] <= h :: s.waiting[c]
  }

  function Next(s: Sub, l: Label): Option<Sub> {
    match l
    case StoreHeight(h) => Some(s.(height := h, inflight := s.inflight + multiset{h}, reached := s.reached + {h}))
    case Notify(h) =>
      if h !in s.inflight || s.checked.Some? then None
      else Some(s.(waiting := s.waiting - Due(s, h).Keys, closed := s.closed + Due(s, h),
                   inflight := s.inflight - multiset{h}))
    case Check(t) =>
      if s.checked.Some? then None
      else if s.height >= t then Some(s)  // errElapsedHeight
      else Some(s.(checked := Some(t)))
    case Register =>
      if s.checked.None? then None
      else Some(s.(waiting := s.waiting[s.next := s.checked.value], checked := None, next := s.next + 1))
  }

  function Run(s: Sub, ls: seq<Label>): Option<Sub>
    decreases ls
  {
    if ls == [] then Some(s)
    else
      var s' := Next(s, ls[0]);
      if s'.None? then None else Run(s'.value, ls[1..])
  }

  /** A notification still to come will reach everyone waiting for `t`. */
  ghost predicate Covered(s: Sub, t: nat) {
    t <= s.height ==> exists n :: n in s.inflight && n >= t
  }

  ghost predicate Inv(s: Sub) {
    && (forall c :: c in s.waiting ==> Covered(s, s.waiting[c]))
    && (s.checked.Some? ==> Covered(s, s.checked.value))
    && s.waiting.Keys !! s.closed.Keys
    && (forall c: Chan :: c in s.waiting || c in s.closed <==> c < s.next)
    && (forall n :: n in s.inflight ==> n in s.reached)
    && (forall c :: c in s.closed ==> exists r :: r in s.reached && r >= s.closed[c])
  }

  lemma NotifyKeepsInv(s: Sub, h: nat)
    requires Inv(s) && Next(s, Notify(h)).Some?
    ensures Inv(Next(s, Notify(h)).value)
  {
    var s' := Next(s, Notify(h)).value;
    forall c | c in s'.waiting ensures Covered(s', s'.waiting[c]) {
      if s.waiting[c] <= s.height {
        var n :| n in s.inflight && n >= s.waiting[c];
        assert n != h && n in s'.inflight;
      }
    }
    assert s'.waiting.Keys + s'.closed.Keys == s.waiting.Keys + s.closed.Keys;
  }

  lemma StepKeepsInv(s: Sub, l: Label)
    requires Inv(s) && Next(s, l).Some?
    ensures Inv(Next(s, l).value)
  {
    match l
    case Notify(h) => NotifyKeepsInv(s, h);
    case StoreHeight(h) =>
      var s' := Next(s, l).value;
      assert h in s'.inflight && h in s'.reached;
      assert forall n :: n in s.inflight ==> n in s'.inflight;
    case Check(t) =>
    case Register =>
      var s' := Next(s, l).value;
      assert s'.waiting.Keys == s.waiting.Keys + {s.next};
  }

  /** No lost wakeup: in every interleaving, whoever waits for a height at or below the current one
      is covered by a notification in flight, even when the height goes down again. */
  lemma {:induction false} NoLostWakeup(s: Sub, ls: seq<Label>)
    requires Inv(s) && Run(s, ls).Some?
    ensures Inv(Run(s, ls).value)
    decreases ls
  {
    if ls != [] {
      StepKeepsInv(s, ls[0]);
      NoLostWakeup(Next(s, ls[0]).value, ls[1..]);
    }
  }

  /** When no SetHeight is under way, everyone still waiting waits for a height above the current
      one; every channel ever handed out is either still waiting or was closed exactly once, and
      one that was closed stands for a height that had been reached. */
  lemma QuiescentStatesHaveNoStrandedWaiters(initial: nat, ls: seq<Label>)
    requires Run(NewSub(initial), ls).Some?
    ensures
      var s := Run(NewSub(initial), ls).value;
      && (s.inflight == multiset{} ==> forall c :: c in s.waiting ==> s.waiting[c] > s.height)
      && s.waiting.Keys !! s.closed.Keys
      && (forall c: Chan :: c in s.waiting || c in s.closed <==> c < s.next)
      && (forall c :: c in s.closed ==> exists r :: r in s.reached && r >= s.closed[c])
  {
    NoLostWakeup(NewSub(initial), ls);
  }

  /** The height stored last, which may be lower than one before. */
  function LastStored(height: nat, ls: seq<Label>): nat
    decreases ls
  {
    if ls == [] then height
    else LastStored(if ls[0].StoreHeight? then ls[0].h else height, ls[1..])
  }

  /** The current height is the one stored last, and a Wait gets a channel exactly when its target is
      above it. */
  lemma {:induction false} HeightIsLastStored(s: Sub, ls: seq<Label>, target: nat)
    requires Run(s, ls).Some?
    ensures
      var now := Run(s, ls).value;
      && now.height == LastStored(s.height, ls)
      && (now.checked.None? ==>
            var r := Run(now, [Check(target), Register]);
            && (r.Some? <==> target > LastStored(s.height, ls))
            && (r.Some? ==> r.value.waiting == now.waiting[now.next := target] && r.value.closed == now.closed))
    decreases ls
  {
    if ls == [] {
      assert [Check(target), Register][1..] == [Register] && [Register][1..] == [];
      if s.checked.None? && target > s.height {
        var s1 := Next(s, Check(target)).value;
        assert Run(s1, [Register]) == Next(s1, Register);
      } else if s.checked.None? {
        assert Run(s, [Register]) == None;
      }
    } else {
      HeightIsLastStored(Next(s, ls[0]).value, ls[1..], target);
    }
  }

  ghost predicate OnlyNotifies(ls: seq<Label>) {
    forall i :: 0 <= i < |ls| ==> ls[i].Notify?
  }

  lemma {:induction false} NotifiesConserve(s: Sub, ls: seq<Label>)
    requires Inv(s) && OnlyNotifies(ls) && Run(s, ls).Some?
    ensures
      var s' := Run(s, ls).value;
      && Inv(s') && s'.height == s.height
      && (forall c :: c in s.waiting ==> (c in s'.waiting && s'.waiting[c] == s.waiting[c]) || c in s'.closed)
      && (forall c :: c in s.closed ==> c in s'.closed)
    decreases ls
  {
    if ls != [] {
      StepKeepsInv(s, ls[0]);
      NotifiesConserve(Next(s, ls[0]).value, ls[1..]);
    }
  }

  /** Letting the pending notifications finish, in any order, wakes every waiter whose height has
      been reached. */
  lemma DrainingWakesAllDue(s: Sub, ls: seq<Label>)
    requires Inv(s) && OnlyNotifies(ls) && Run(s, ls).Some? && Run(s, ls).value.inflight == multiset{}
    ensures forall c :: c in s.waiting && s.waiting[c] <= s.height ==> c in Run(s, ls).value.closed
  {
    NotifiesConserve(s, ls);
  }

  ghost predicate NoDuplicates(chs: seq<Chan>) {
    forall i, j :: 0 <= i < j < |chs| ==> chs[i] != chs[j]
  }

  ghost function Without(m: map<Chan, nat>, gone: set<nat>): map<Chan, nat> {
    map c | c in m && m[c] !in gone :: m[c]
  }

  ghost function Within(m: map<Chan, nat>, gone: set<nat>): map<Chan, nat> {
    map c | c in m && m[c] in gone :: m[c]
  }

  lemma WithoutMore(base: map<Chan, nat>, m: map<Chan, nat>, gone: set<nat>, k: nat)
    ensures Without(Without(m, gone), {k}) == Without(m, gone + {k})
    ensures base + Within(m, gone) + Within(Without(m, gone), {k}) == base + Within(m, gone + {k})
  {
  }

  /** The lists hold exactly the waiting channels, each once and at its height. */
  ghost predicate Listed(lists: map<nat, seq<Chan>>, waiting: map<Chan, nat>) {
    && (forall h, c :: h in lists && c in lists[h] ==> c in waiting && waiting[c] == h)
    && (forall c :: c in waiting ==> waiting[c] in lists && c in lists[waiting[c]])
    && (forall h :: h in lists ==> NoDuplicates(lists[h]))
  }

  lemma DropList(lists: map<nat, seq<Chan>>, waiting: map<Chan, nat>, k: nat)
    requires Listed(lists, waiting) && k in lists
    ensures Listed(lists - {k}, Without(waiting, {k}))
    ensures forall c :: c in lists[k] <==> c in waiting && waiting[c] == k
  {
  }

  lemma AddToList(lists: map<nat, seq<Chan>>, waiting: map<Chan, nat>, target: nat, ch: Chan)
    requires Listed(lists, waiting) && ch !in waiting
    ensures
      var chs := if target in lists then lists[target] else [];
      Listed(lists[target := chs + [ch]], waiting[ch := target])
  {
    var chs := if target in lists then lists[target] else [];
    var lists' := lists[target := chs + [ch]];
    assert ch !in chs;
    assert lists'[target] == chs + [ch];
    forall h | h in lists' ensures NoDuplicates(lists'[h]) {
      if h != target {
        assert lists'[h] == lists[h];
      }
    }
  }

  lemma GoneAreDue(s: Sub, gone: set<nat>, h: nat)
    requires forall c :: c in s.waiting ==> (s.waiting[c] in gone <==> s.waiting[c] <= h)
    ensures Within(s.waiting, gone) == Due(s, h) && Without(s.waiting, gone) == s.waiting - Due(s, h).Keys
  {
  }

  /** The object itself. Closing a channel twice would panic, so Close demands that it is open. */
  class Subscription {
    var height: nat
    var heightChs: map<nat, seq<Chan>>
    var closed: set<Chan>
    var nextChan: Chan
    ghost var waiting: map<Chan, nat>
    ghost var closedFor: map<Chan, nat>

    ghost predicate Valid() reads this {
      && Listed(heightChs, waiting)
      && closedFor.Keys == closed && waiting.Keys !! closed
      && (forall c :: c in waiting || c in closed ==> c < nextChan)
    }

    /** The machine state, given what the object does not record itself. */
    ghost function View(checked: Option<nat>, inflight: multiset<nat>, reached: set<nat>): Sub reads this {
      Sub(height, waiting, closedFor, checked, inflight, nextChan, reached)
    }

    constructor (initialHeight: nat)
      ensures Valid() && View(None, multiset{}, {initialHeight}) == NewSub(initialHeight)
    {
      height, heightChs, closed, nextChan, waiting, closedFor := initialHeight, map[], {}, 0, map[], map[];
    }

    method StoreHeightOnly(h: nat, ghost inflight: multiset<nat>, ghost reached: set<nat>)
      requires Valid()
      modifies `height
      ensures Valid()
      ensures Next(old(View(None, inflight, reached)), StoreHeight(h))
              == Some(View(None, inflight + multiset{h}, reached + {h}))
    {
      height := h;
    }

    method CloseEach(chs: seq<Chan>)
      requires NoDuplicates(chs) && forall c :: c in chs ==> c !in closed
      modifies `closed
      ensures closed == old(closed) + set c | c in chs
    {
      for i := 0 to |chs|
        invariant forall c :: c in closed <==> c in old(closed) || c in chs[..i]
      {
        assert chs[..i + 1] == chs[..i] + [chs[i]];
        assert chs[i] !in chs[..i];
        assert chs[i] !in closed;  // closing a closed channel would panic
        closed := closed + {chs[i]};
      }
      assert chs[..|chs|] == chs;
    }

    /** Closes and forgets every channel waiting for `k`. */
    method CloseAll(k: nat)
      requires Valid() && k in heightChs
      modifies `closed, `waiting, `closedFor, `heightChs
      ensures Valid()
      ensures heightChs == old(heightChs) - {k}
      ensures waiting == Without(old(waiting), {k}) && closedFor == old(closedFor) + Within(old(waiting), {k})
    {
      DropList(heightChs, waiting, k);
      CloseEach(heightChs[k]);
      assert closed == old(closed) + Within(waiting, {k}).Keys by {
        assert forall c :: c in heightChs[k] <==> c in Within(waiting, {k});
      }
      heightChs := heightChs - {k};
      closedFor := closedFor + Within(waiting, {k});
      waiting := Without(waiting, {k});
    }

    /** Ranges over the lists and closes those at or below `h`. */
    method CloseUpTo(h: nat) returns (ghost gone: set<nat>)
      requires Valid()
      modifies `closed, `waiting, `closedFor, `heightChs
      ensures Valid()
      ensures forall k :: k in gone ==> k <= h
      ensures forall c :: c in waiting ==> waiting[c] > h
      ensures waiting == Without(old(waiting), gone) && closedFor == old(closedFor) + Within(old(waiting), gone)
    {
      var todo := heightChs.Keys;
      gone := {};
      while todo != {}
        invariant Valid() && todo <= heightChs.Keys
        invariant forall k :: k in heightChs && k !in todo ==> k > h
        invariant forall k :: k in gone ==> k <= h
        invariant waiting == Without(old(waiting), gone) && closedFor == old(closedFor) + Within(old(waiting), gone)
        decreases |todo|
      {
        var k :| k in todo;
        todo := todo - {k};
        if k <= h {
          CloseAll(k);
          WithoutMore(old(closedFor), old(waiting), gone, k);
          gone := gone + {k};
        }
      }
    }

    /** notifyUpTo: closes and forgets every list at or below `h`. */
    method NotifyUpTo(h: nat, ghost inflight: multiset<nat>, ghost reached: set<nat>)
      requires Valid()
      modifies `closed, `waiting, `closedFor, `heightChs
      ensures Valid()
      ensures Next(old(View(None, inflight + multiset{h}, reached)), Notify(h)) == Some(View(None, inflight, reached))
    {
      ghost var s := View(None, inflight + multiset{h}, reached);
      ghost var gone := CloseUpTo(h);
      forall c | c in s.waiting ensures s.waiting[c] in gone <==> s.waiting[c] <= h {
        if s.waiting[c] !in gone {
          assert c in waiting;
        }
      }
      GoneAreDue(s, gone, h);
      assert s.inflight - multiset{h} == inflight;
    }

    method SetHeight(h: nat, ghost inflight: multiset<nat>, ghost reached: set<nat>)
      requires Valid()
      modifies this
      ensures Valid()
      ensures Run(old(View(None, inflight, reached)), [StoreHeight(h), Notify(h)])
              == Some(View(None, inflight, reached + {h}))
    {
      ghost var s0 := View(None, inflight, reached);
      StoreHeightOnly(h, inflight, reached);
      ghost var s1 := View(None, inflight + multiset{h}, reached + {h});
      NotifyUpTo(h, inflight, reached + {h});
      ghost var s2 := View(None, inflight, reached + {h});
      assert [StoreHeight(h), Notify(h)][1..] == [Notify(h)] && [Notify(h)][1..] == [];
      assert Run(s1, [Notify(h)]) == Some(s2);
    }

    /** The locked section of Wait: None when the height was reached already, else the channel. */
    method CheckAndRegister(target: nat, ghost inflight: multiset<nat>, ghost reached: set<nat>)
      returns (ch: Option<Chan>)
      requires Valid()
      modifies this
      ensures Valid()
      ensures ch.None? <==> old(height) >= target
      ensures ch.None? ==> View(None, inflight, reached) == old(View(None, inflight, reached))
      ensures ch.Some? ==>
                Run(old(View(None, inflight, reached)), [Check(target), Register]) == Some(View(None, inflight, reached))
                && ch.value in waiting && waiting[ch.value] == target && ch.value !in old(waiting)
    {
      if height >= target {
        return None;
      }
      ghost var s0 := View(None, inflight, reached);
      ghost var s1 := View(Some(target), inflight, reached);
      AddToList(heightChs, waiting, target, nextChan);
      var chs := if target in heightChs then heightChs[target] else [];
      ch := Some(nextChan);
      heightChs := heightChs[target := chs + [nextChan]];
      waiting := waiting[nextChan := target];
      nextChan := nextChan + 1;
      assert [Check(target), Register][1..] == [Register] && [Register][1..] == [];
      assert Run(s1, [Register]) == Some(View(None, inflight, reached));
    }
  }
}

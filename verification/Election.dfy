/** Leader election (pkg/raft/election.go): the event loop that starts and stops the one worker of a
    node. The answers a loop iteration gets from the Raft node, the factories and the runnable are
    part of its event; everything the loop does is an entry of a log. */
module Election {
  import opened Basics

  datatype Role = Leader | Follower

  datatype LeaderId = Nobody | Self | Other

  datatype Outcome = LeadershipLost | Failed | WorkerFailed | ContextDone

  datatype Action =
    | Waited(landed: bool)
    | AskedLeader(isSelf: bool)
    | Checked(diff: Option<int>)
    | Recovered(ok: bool)
    | Built(role: Role, ok: bool)
    | Started(role: Role)
    | Exited(failed: bool)
    | Transferred
    | Returned(outcome: Outcome)

  /** What one iteration learns from outside: do the logs land, who leads, how far is the runnable
      from the Raft state, does recovery work, does the factory work, the height of the Raft state
      (None without one), does a cancelled worker end without an error of its own. */
  datatype Env = Env(landed: bool, leader: LeaderId, diff: Option<int>, recovers: bool, builds: bool,
                     raftHeight: Option<nat>, cancelsCleanly: bool)

  datatype Event =
    | LeaderChanged(becameLeader: bool, env: Env)
    | Tick(env: Env)
    | WorkerExits(failed: bool)
    | ErrorReceived(env: Env)
    | Cancelled(env: Env)

  datatype State = State(
    started: bool, leader: bool, runnable: Option<Role>, worker: Option<Role>,
    ticking: bool, errPending: bool, result: Option<Outcome>, log: seq<Action>)

  const INIT := State(false, false, None, None, true, false, None, [])

  function Say(s: State, a: Action): State {
    s.(log := s.log + [a])
  }

  /** The worker goroutine ends; one that failed hands leadership over and leaves its error. */
  function Exit(s: State, failed: bool): State {
    if s.worker.None? then s
    else if failed then s.(worker := None, errPending := true, log := s.log + [Exited(true)] + [Transferred])
    else s.(worker := None, log := s.log + [Exited(false)])
  }

  /** Cancel the worker and wait for it. */
  function Stop(s: State, env: Env): State {
    Exit(s, !env.cancelsCleanly)
  }

  function Start(s: State, role: Role, env: Env): State {
    Say(Stop(s, env), Started(role)).(worker := Some(role))
  }

  /** Returning runs the deferred stop. */
  function Return(s: State, outcome: Outcome, env: Env): State {
    Say(Stop(s, env), Returned(outcome)).(result := Some(outcome))
  }

  datatype Handover = Proceed | Continue | Fail

  /** The part of becoming leader that is skipped when nothing runs yet: are we still the leader, is
      the running follower synced or can it be recovered. The second component says whether the
      leader may start, the event is dropped, or Run fails. */
  function Reconcile(log: seq<Action>, env: Env): (seq<Action>, Handover) {
    var asked := log + [AskedLeader(env.leader == Self)];
    if env.leader != Self then (asked, Continue)
    else
      var checked := asked + [Checked(env.diff)];
      if env.diff.None? then (checked, Fail)
      else if env.diff.value == 0 then (checked, Proceed)
      else
        var tried := checked + [Recovered(env.recovers)];
        if env.recovers then (tried, Proceed) else (tried + [Transferred], Fail)
  }

  function Lead(s: State, env: Env): State {
    var s1 := Say(s, Built(Leader, env.builds));
    if !env.builds then Return(s1.(runnable := None), Failed, env)
    else Start(s1.(runnable := Some(Leader), started := true, leader := true), Leader, env)
  }

  function BecomeLeader(s: State, env: Env): State {
    var s1 := Say(s, Waited(env.landed));
    if !env.landed then Say(s1, Transferred)
    else if !s1.started then Lead(s1, env)
    else
      var r := Reconcile(s1.log, env);
      var s2 := s1.(log := r.0);
      match r.1
      case Continue => s2
      case Fail => Return(s2, Failed, env)
      case Proceed => Lead(Stop(s2, env), env)
  }

  /** verifyState: only a runnable ahead of a non-empty Raft state is recovered. */
  function VerifyState(log: seq<Action>, env: Env): (seq<Action>, bool) {
    if env.raftHeight.None? || env.raftHeight.value == 0 then (log, true)
    else
      var checked := log + [Checked(env.diff)];
      if env.diff.None? then (checked, false)
      else if env.diff.value <= 0 then (checked, true)
      else (checked + [Recovered(env.recovers)], env.recovers)
  }

  function Follow(s: State, verify: bool, env: Env): State {
    var s1 := Say(s.(started := true), Built(Follower, env.builds));
    if !env.builds then Return(s1.(runnable := None), Failed, env)
    else
      var v := if verify then VerifyState(s1.log, env) else (s1.log, true);
      var s2 := s1.(runnable := Some(Follower), log := v.0);
      if !v.1 then Return(s2, Failed, env) else Start(s2, Follower, env)
  }

  function OnTick(s: State, env: Env): State {
    if env.leader == Nobody then s
    else
      var t := s.(ticking := false);
      if t.started || env.leader == Self then t else Follow(t, false, env)
  }

  /** One round of the loop; nothing happens once Run has returned. */
  function Step(s: State, e: Event): State {
    if s.result.Some? then s
    else
      match e
      case LeaderChanged(became, env) =>
        if became && !s.leader then BecomeLeader(s, env)
        else if !became && s.leader then Return(s, LeadershipLost, env)
        else if !became && !s.started then Follow(s, true, env)
        else s
      case Tick(env) => if s.ticking then OnTick(s, env) else s
      case WorkerExits(failed) => Exit(s, failed)
      case ErrorReceived(env) => if s.errPending then Return(s, WorkerFailed, env) else s
      case Cancelled(env) => Return(s, ContextDone, env)
  }

  function Run(s: State, events: seq<Event>): State
    decreases events
  {
    if events == [] then s else Run(Step(s, events[0]), events[1..])
  }

  // ---------------------------------------------------------------- the safety monitor

  /** What has to be remembered of a log to judge its next entry. `landed`, `confirmed` and
      `reconciled` are about the entries since the last wait or start. */
  datatype Monitor = Monitor(
    live: Option<Role>, ledBefore: bool, followedBefore: bool, built: bool,
    landed: bool, confirmed: bool, reconciled: bool, returned: bool, ok: bool)

  const WATCHING := Monitor(None, false, false, false, false, false, false, false, true)

  /** A leader starts only after the logs have landed and, when the node has followed before, after
      it was found to be the leader and synced or recovered. One worker at a time, the follower
      before the leader, each at most once, none alive at the return and nothing after it. */
  predicate Permitted(m: Monitor, a: Action) {
    && !m.returned
    && match a
       case Started(role) =>
         && m.live.None? && m.built && !m.ledBefore
         && (if role == Leader then m.landed && (m.followedBefore ==> m.confirmed && m.reconciled)
             else !m.followedBefore)
       case Exited(_) => m.live.Some?
       case Checked(_) => m.built
       case Recovered(_) => m.built
       case Returned(_) => m.live.None?
       case _ => true
  }

  function Observe(m: Monitor, a: Action): Monitor {
    var restart := a.Waited? || a.Started?;
    Monitor(
      if a.Started? then Some(a.role) else if a.Exited? then None else m.live,
      m.ledBefore || a == Started(Leader),
      m.followedBefore || a == Started(Follower),
      if a.Built? then a.ok else m.built,
      if a.Waited? then a.landed else m.landed && !restart,
      if a.AskedLeader? then a.isSelf else m.confirmed && !restart,
      if a.Checked? then a.diff == Some(0) else if a.Recovered? then a.ok else m.reconciled && !restart,
      m.returned || a.Returned?,
      m.ok && Permitted(m, a))
  }

  function Watch(log: seq<Action>): Monitor {
    if log == [] then WATCHING else Observe(Watch(log[..|log| - 1]), log[|log| - 1])
  }

  // ---------------------------------------------------------------- invariant

  /** Proofs are about any function that reads logs the way `Watch` does. */
  type Watcher = seq<Action> -> Monitor

  ghost predicate Faithful(w: Watcher) {
    w([]) == WATCHING && forall log, a :: w(log + [a]) == Observe(w(log), a)
  }

  lemma WatchIsFaithful()
    ensures Faithful(Watch)
  {
    forall log: seq<Action>, a ensures Watch(log + [a]) == Observe(Watch(log), a) {
      assert (log + [a])[..|log|] == log;
    }
  }

  /** The loop is running and its variables are what the log says. */
  ghost predicate Tracks(w: Watcher, s: State) {
    var m := w(s.log);
    && s.result.None? && !m.returned && m.ok && m.live == s.worker
    && m.built == s.runnable.Some? && m.ledBefore == s.leader
    && (s.started <==> m.followedBefore || m.ledBefore)
    && (s.started ==> s.runnable.Some?)
  }

  /** Run has returned and left no worker behind. */
  ghost predicate Ended(w: Watcher, s: State) {
    s.result.Some? && s.worker.None? && w(s.log).ok && w(s.log).returned && w(s.log).live.None?
  }

  ghost predicate Inv(w: Watcher, s: State) {
    if s.result.None? then Tracks(w, s) else Ended(w, s)
  }

  /** The log allows a leader to start as soon as no worker lives. */
  ghost predicate MayLead(w: Watcher, s: State) {
    var m := w(s.log);
    m.landed && !m.ledBefore && (m.followedBefore ==> m.confirmed && m.reconciled)
  }

  predicate SameRole(s: State, t: State) {
    s.started == t.started && s.leader == t.leader && s.runnable == t.runnable && s.result == t.result
  }

  lemma ExitEffect(w: Watcher, s: State, failed: bool)
    requires Faithful(w) && w(s.log).ok && w(s.log).live == s.worker && !w(s.log).returned
    ensures w(Exit(s, failed).log) == w(s.log).(live := None)
    ensures Exit(s, failed).worker.None? && SameRole(s, Exit(s, failed))
  {
  }

  lemma ReturnEnds(w: Watcher, s: State, outcome: Outcome, env: Env)
    requires Faithful(w) && w(s.log).ok && w(s.log).live == s.worker && !w(s.log).returned
    ensures Ended(w, Return(s, outcome, env)) && Return(s, outcome, env).result == Some(outcome)
  {
    ExitEffect(w, s, !env.cancelsCleanly);
  }

  lemma LeadKeepsInv(w: Watcher, s: State, env: Env)
    requires Faithful(w) && Tracks(w, s) && MayLead(w, s)
    ensures Inv(w, Lead(s, env))
  {
    var s1 := Say(s, Built(Leader, env.builds));
    if env.builds {
      ExitEffect(w, s1.(runnable := Some(Leader), started := true, leader := true), !env.cancelsCleanly);
    } else {
      ReturnEnds(w, s1.(runnable := None), Failed, env);
    }
  }

  /** `n` differs from `m` at most in what a question to the outside can change. */
  predicate Consulted(m: Monitor, n: Monitor) {
    && n.live == m.live && n.ledBefore == m.ledBefore && n.followedBefore == m.followedBefore
    && n.built == m.built && n.landed == m.landed && n.returned == m.returned && n.ok == m.ok
  }

  lemma NoteEffect(w: Watcher, log: seq<Action>, a: Action)
    requires Faithful(w) && w(log).built && !w(log).returned
    requires a.AskedLeader? || a.Checked? || a.Recovered? || a.Transferred?
    ensures w(log + [a]) == Observe(w(log), a) && Consulted(w(log), w(log + [a]))
  {
  }

  lemma ReconcileEffect(w: Watcher, log: seq<Action>, env: Env)
    requires Faithful(w) && w(log).built && !w(log).returned
    ensures Consulted(w(log), w(Reconcile(log, env).0))
    ensures Reconcile(log, env).1.Proceed? ==>
              w(Reconcile(log, env).0).confirmed && w(Reconcile(log, env).0).reconciled
  {
    NoteEffect(w, log, AskedLeader(env.leader == Self));
    if env.leader == Self {
      var asked := log + [AskedLeader(true)];
      NoteEffect(w, asked, Checked(env.diff));
      if env.diff.Some? && env.diff.value != 0 {
        var checked := asked + [Checked(env.diff)];
        NoteEffect(w, checked, Recovered(env.recovers));
        if !env.recovers {
          NoteEffect(w, checked + [Recovered(false)], Transferred);
        }
      }
    }
  }

  lemma BecomeLeaderKeepsInv(w: Watcher, s: State, env: Env)
    requires Faithful(w) && Tracks(w, s) && !s.leader
    ensures Inv(w, BecomeLeader(s, env))
  {
    var s1 := Say(s, Waited(env.landed));
    if env.landed && s1.started {
      ReconcileEffect(w, s1.log, env);
      var r := Reconcile(s1.log, env);
      var s2 := s1.(log := r.0);
      if r.1.Fail? {
        ReturnEnds(w, s2, Failed, env);
      } else if r.1.Proceed? {
        ExitEffect(w, s2, !env.cancelsCleanly);
        LeadKeepsInv(w, Stop(s2, env), env);
      }
    } else if env.landed {
      LeadKeepsInv(w, s1, env);
    }
  }

  lemma VerifyStateEffect(w: Watcher, log: seq<Action>, env: Env)
    requires Faithful(w) && w(log).built && !w(log).returned
    ensures Consulted(w(log), w(VerifyState(log, env).0))
  {
    NoteEffect(w, log, Checked(env.diff));
    NoteEffect(w, log + [Checked(env.diff)], Recovered(env.recovers));
  }

  lemma FollowKeepsInv(w: Watcher, s: State, verify: bool, env: Env)
    requires Faithful(w) && Tracks(w, s) && !s.started
    ensures Inv(w, Follow(s, verify, env))
  {
    var s1 := Say(s.(started := true), Built(Follower, env.builds));
    if env.builds {
      VerifyStateEffect(w, s1.log, env);
      var v := if verify then VerifyState(s1.log, env) else (s1.log, true);
      var s2 := s1.(runnable := Some(Follower), log := v.0);
      if v.1 {
        ExitEffect(w, s2, !env.cancelsCleanly);
      } else {
        ReturnEnds(w, s2, Failed, env);
      }
    } else {
      ReturnEnds(w, s1.(runnable := None), Failed, env);
    }
  }

  lemma StepKeepsInv(w: Watcher, s: State, e: Event)
    requires Faithful(w) && Inv(w, s)
    ensures Inv(w, Step(s, e))
  {
    if s.result.None? {
      match e
      case LeaderChanged(became, env) =>
        if became && !s.leader {
          BecomeLeaderKeepsInv(w, s, env);
        } else if !became && s.leader {
          ReturnEnds(w, s, LeadershipLost, env);
        } else if !became && !s.started {
          FollowKeepsInv(w, s, true, env);
        }
      case Tick(env) =>
        if s.ticking && env.leader == Other && !s.started {
          FollowKeepsInv(w, s.(ticking := false), false, env);
        }
      case WorkerExits(failed) => ExitEffect(w, s, failed);
      case ErrorReceived(env) => ReturnEnds(w, s, WorkerFailed, env);
      case Cancelled(env) => ReturnEnds(w, s, ContextDone, env);
    }
  }

  lemma {:induction false} RunKeepsInv(w: Watcher, s: State, events: seq<Event>)
    requires Faithful(w) && Inv(w, s)
    ensures Inv(w, Run(s, events))
    decreases events
  {
    if events != [] {
      StepKeepsInv(w, s, events[0]);
      RunKeepsInv(w, Step(s, events[0]), events[1..]);
    }
  }

  // ---------------------------------------------------------------- what the monitor means

  /** Entry `k` comes after every wait and every start but itself. */
  predicate Recent(log: seq<Action>, k: nat) {
    k < |log| && forall l :: k < l < |log| ==> !log[l].Waited? && !log[l].Started?
  }

  predicate ExitsAfter(log: seq<Action>, i: nat) {
    exists k :: i < k < |log| && log[k].Exited?
  }

  ghost predicate Remembered(log: seq<Action>, m: Monitor) {
    && (m.landed ==> exists k: nat :: Recent(log, k) && log[k] == Waited(true))
    && (m.confirmed ==> exists k: nat :: Recent(log, k) && log[k] == AskedLeader(true))
    && (m.reconciled ==> exists k: nat :: Recent(log, k) && (log[k] == Checked(Some(0)) || log[k] == Recovered(true)))
    && (m.ledBefore <==> Started(Leader) in log)
    && (m.followedBefore <==> Started(Follower) in log)
    && (m.live.None? ==> forall i :: 0 <= i < |log| && log[i].Started? ==> ExitsAfter(log, i))
    && (m.returned <==> exists i :: 0 <= i < |log| && log[i].Returned?)
  }

  lemma {:induction false} WatchRemembers(log: seq<Action>)
    ensures Remembered(log, Watch(log))
  {
    if log != [] {
      var n := |log| - 1;
      WatchRemembers(log[..n]);
      Extends(log[..n], Watch(log[..n]), log[n]);
      assert log == log[..n] + [log[n]];
    }
  }

  lemma Extends(log: seq<Action>, m: Monitor, a: Action)
    requires Remembered(log, m)
    ensures Remembered(log + [a], Observe(m, a))
  {
    var after := log + [a];
    forall k: nat | Recent(log, k) && !a.Waited? && !a.Started? ensures Recent(after, k) && after[k] == log[k] {
    }
    forall i | 0 <= i < |log| && ExitsAfter(log, i) ensures ExitsAfter(after, i) {
      var k :| i < k < |log| && log[k].Exited?;
      assert after[k].Exited?;
    }
    assert Recent(after, |log|) && after[|log|] == a;
    forall i | 0 <= i < |log| && log[i].Returned? ensures after[i].Returned? {
    }
  }

  lemma {:induction false} PrefixPermitted(log: seq<Action>, i: nat)
    requires Watch(log).ok && i < |log|
    ensures Permitted(Watch(log[..i]), log[i])
    decreases |log|
  {
    var n := |log| - 1;
    if i < n {
      PrefixPermitted(log[..n], i);
      assert log[..n][..i] == log[..i];
    }
  }

  // ---------------------------------------------------------------- main results

  /** The logs landed, and nothing was started between that and this start. If the node followed
      before, it was then also found to be the leader and synced or recovered, and the follower has
      ended. */
  ghost predicate SafeLeaderStart(log: seq<Action>, i: nat)
    requires i < |log|
  {
    && (exists k: nat :: Recent(log[..i], k) && log[..i][k] == Waited(true))
    && (Started(Follower) in log[..i] ==>
          && (exists k: nat :: Recent(log[..i], k) && log[..i][k] == AskedLeader(true))
          && (exists k: nat :: Recent(log[..i], k) && (log[..i][k] == Checked(Some(0)) || log[..i][k] == Recovered(true))))
  }

  ghost predicate SafeLog(log: seq<Action>) {
    && (forall i :: 0 <= i < |log| && log[i] == Started(Leader) ==> SafeLeaderStart(log, i))
    && (forall i, j :: 0 <= i < j < |log| && log[i].Started? && log[j].Started? ==>
          log[i].role == Follower && log[j].role == Leader && ExitsAfter(log[..j], i))
    && (forall i :: 0 <= i < |log| - 1 ==> !log[i].Returned?)
  }

  lemma StartsAreOrdered(log: seq<Action>, i: nat, j: nat)
    requires Watch(log).ok && i < j < |log| && log[i].Started? && log[j].Started?
    ensures log[i].role == Follower && log[j].role == Leader && ExitsAfter(log[..j], i)
  {
    PrefixPermitted(log, j);
    WatchRemembers(log[..j]);
    assert log[..j][i] == log[i];
  }

  lemma ReturnIsLast(log: seq<Action>, i: nat)
    requires Watch(log).ok && i < |log| - 1
    ensures !log[i].Returned?
  {
    var n := |log| - 1;
    PrefixPermitted(log, n);
    WatchRemembers(log[..n]);
    assert log[..n][i] == log[i];
  }

  lemma OkLogsAreSafe(log: seq<Action>)
    requires Watch(log).ok
    ensures SafeLog(log)
  {
    forall i | 0 <= i < |log| && log[i] == Started(Leader) ensures SafeLeaderStart(log, i) {
      PrefixPermitted(log, i);
      WatchRemembers(log[..i]);
    }
    forall i, j | 0 <= i < j < |log| && log[i].Started? && log[j].Started?
      ensures log[i].role == Follower && log[j].role == Leader && ExitsAfter(log[..j], i)
    {
      StartsAreOrdered(log, i, j);
    }
    forall i | 0 <= i < |log| - 1 ensures !log[i].Returned? {
      ReturnIsLast(log, i);
    }
  }

  /** Every run of the election loop, whatever events and answers it meets: a leader starts only on
      landed logs and in sync, there is one worker at a time, the follower comes before the leader
      and neither comes twice, and a run that has returned has left no worker behind. */
  lemma EveryRunIsSafe(events: seq<Event>)
    ensures
      var s := Run(INIT, events);
      && SafeLog(s.log)
      && (s.result.Some? ==> forall i :: 0 <= i < |s.log| && s.log[i].Started? ==> ExitsAfter(s.log, i))
  {
    WatchIsFaithful();
    RunKeepsInv(Watch, INIT, events);
    var log := Run(INIT, events).log;
    OkLogsAreSafe(log);
    WatchRemembers(log);
  }

  ghost predicate Unchecked(log: seq<Action>) {
    forall k :: 0 <= k < |log| ==> !log[k].Checked? && !log[k].Started?
  }

  /** Before anything is started, nothing has been compared with the Raft state. */
  ghost predicate Untouched(s: State) {
    s.result.None? && !s.started ==> s.worker.None? && !s.leader && Unchecked(s.log)
  }

  lemma StepKeepsUntouched(s: State, e: Event)
    requires Untouched(s)
    ensures Untouched(Step(s, e))
  {
  }

  lemma {:induction false} RunKeepsUntouched(s: State, events: seq<Event>)
    requires Untouched(s)
    ensures Untouched(Run(s, events))
    decreases events
  {
    if events != [] {
      StepKeepsUntouched(s, events[0]);
      RunKeepsUntouched(Step(s, events[0]), events[1..]);
    }
  }

  /** The entries that starting a follower adds when it goes well. */
  function FollowLog(log: seq<Action>, verify: bool, env: Env): seq<Action> {
    var built := log + [Built(Follower, true)];
    (if verify then VerifyState(built, env).0 else built) + [Started(Follower)]
  }

  /** A step that starts a follower is the first to start anything, and this is what it logs. */
  lemma FollowerStartIs(s: State, e: Event)
    requires Untouched(s) && s.result.None? && !s.started && Started(Follower) in Step(s, e).log
    ensures (e.LeaderChanged? && !e.becameLeader) || e.Tick?
    ensures Step(s, e).log == FollowLog(s.log, e.LeaderChanged?, e.env)
  {
    match e
    case LeaderChanged(became, env) =>
      if became {
        BecomeLeaderLogs(s, env);
      } else if s.leader {
        ReturnLogs(s, LeadershipLost, env);
      } else {
        FollowLogs(s, true, env);
      }
    case Tick(env) => TickLogs(s, env);
    case WorkerExits(failed) => ExitLogs(s, failed);
    case ErrorReceived(env) => ReturnLogs(s, WorkerFailed, env);
    case Cancelled(env) => ReturnLogs(s, ContextDone, env);
  }

  lemma FollowLogs(s: State, verify: bool, env: Env)
    requires Started(Follower) !in s.log && s.worker.None?
    ensures Started(Follower) in Follow(s, verify, env).log ==> Follow(s, verify, env).log == FollowLog(s.log, verify, env)
  {
    var s1 := Say(s.(started := true), Built(Follower, env.builds));
    if !env.builds {
      ReturnLogs(s1.(runnable := None), Failed, env);
    } else {
      VerifyLogs(s1.log, env);
      var v := if verify then VerifyState(s1.log, env) else (s1.log, true);
      if !v.1 {
        ReturnLogs(s1.(runnable := Some(Follower), log := v.0), Failed, env);
      }
    }
  }

  lemma VerifyLogs(log: seq<Action>, env: Env)
    ensures NoNewFollower(log, VerifyState(log, env).0)
  {
  }

  lemma TickLogs(s: State, env: Env)
    requires Started(Follower) !in s.log && s.worker.None?
    ensures Started(Follower) in OnTick(s, env).log ==> OnTick(s, env).log == FollowLog(s.log, false, env)
  {
    FollowLogs(s.(ticking := false), false, env);
  }

  ghost predicate NoNewFollower(before: seq<Action>, after: seq<Action>) {
    Started(Follower) in after ==> Started(Follower) in before
  }

  lemma ExitLogs(s: State, failed: bool)
    ensures NoNewFollower(s.log, Exit(s, failed).log)
  {
  }

  lemma ReturnLogs(s: State, outcome: Outcome, env: Env)
    ensures NoNewFollower(s.log, Return(s, outcome, env).log)
  {
    ExitLogs(s, !env.cancelsCleanly);
  }

  lemma LeadLogs(s: State, env: Env)
    ensures NoNewFollower(s.log, Lead(s, env).log)
  {
    var s1 := Say(s, Built(Leader, env.builds));
    ReturnLogs(s1.(runnable := None), Failed, env);
    ExitLogs(s1.(runnable := Some(Leader), started := true, leader := true), !env.cancelsCleanly);
  }

  lemma BecomeLeaderLogs(s: State, env: Env)
    ensures NoNewFollower(s.log, BecomeLeader(s, env).log)
  {
    var s1 := Say(s, Waited(env.landed));
    if env.landed && s1.started {
      ReconcileLogs(s1.log, env);
      var s2 := s1.(log := Reconcile(s1.log, env).0);
      ReturnLogs(s2, Failed, env);
      ExitLogs(s2, !env.cancelsCleanly);
      LeadLogs(Stop(s2, env), env);
    } else if env.landed {
      LeadLogs(s1, env);
    }
  }

  lemma ReconcileLogs(log: seq<Action>, env: Env)
    ensures NoNewFollower(log, Reconcile(log, env).0)
  {
  }

  lemma StartedKeepsFollower(s: State, e: Event)
    requires s.started || s.result.Some?
    ensures NoNewFollower(s.log, Step(s, e).log)
  {
    match e
    case LeaderChanged(_, env) =>
      BecomeLeaderLogs(s, env);
      ReturnLogs(s, LeadershipLost, env);
    case Tick(_) =>
    case WorkerExits(failed) => ExitLogs(s, failed);
    case ErrorReceived(env) => ReturnLogs(s, WorkerFailed, env);
    case Cancelled(env) => ReturnLogs(s, ContextDone, env);
  }

  /** Over every run: the log up to the start of the follower holds a comparison with the Raft state
      if and only if a leader change started it while that state was not empty. A follower started
      by the ticker has not been compared, whatever came before. */
  lemma FollowerCheckedIff(events: seq<Event>, e: Event)
    requires Started(Follower) !in Run(INIT, events).log
    requires Started(Follower) in Step(Run(INIT, events), e).log
    ensures
      var log := Step(Run(INIT, events), e).log;
      (exists k :: 0 <= k < |log| && log[k].Checked?) <==>
        e.LeaderChanged? && e.env.raftHeight.Some? && e.env.raftHeight.value > 0
  {
    var s := Run(INIT, events);
    RunKeepsUntouched(INIT, events);
    if s.started || s.result.Some? {
      StartedKeepsFollower(s, e);
    } else {
      FollowerStartIs(s, e);
      FollowLogChecked(s.log, e.LeaderChanged?, e.env);
    }
  }

  lemma FollowLogChecked(log: seq<Action>, verify: bool, env: Env)
    requires Unchecked(log)
    ensures
      var after := FollowLog(log, verify, env);
      (exists k :: 0 <= k < |after| && after[k].Checked?) <==>
        verify && env.raftHeight.Some? && env.raftHeight.value > 0
  {
    var after := FollowLog(log, verify, env);
    if verify && env.raftHeight.Some? && env.raftHeight.value > 0 {
      assert after[|log| + 1] == Checked(env.diff);
    } else {
      assert after == log + [Built(Follower, true)] + [Started(Follower)];
    }
  }

  // ---------------------------------------------------------------- when the loop starts, ends and returns

  lemma {:induction false} RunSnoc(s: State, events: seq<Event>, e: Event)
    ensures Run(s, events + [e]) == Step(Run(s, events), e)
    decreases events
  {
    if events == [] {
      assert events + [e] == [e] && [e][1..] == [];
    } else {
      assert (events + [e])[0] == events[0] && (events + [e])[1..] == events[1..] + [e];
      RunSnoc(Step(s, events[0]), events[1..], e);
    }
  }

  /** Leadership is handed over at once when a worker fails and when the logs do not land. */
  ghost predicate HandsOver(log: seq<Action>) {
    forall i :: 0 <= i < |log| && (log[i] == Exited(true) || log[i] == Waited(false)) ==>
      i + 1 < |log| && log[i + 1] == Transferred
  }

  lemma HandsOverSnoc(log: seq<Action>, a: Action)
    requires HandsOver(log) && a != Exited(true) && a != Waited(false)
    ensures HandsOver(log + [a])
  {
    var after := log + [a];
    forall i | 0 <= i < |after| && (after[i] == Exited(true) || after[i] == Waited(false))
      ensures i + 1 < |after| && after[i + 1] == Transferred
    {
      assert log[i] == after[i];
    }
  }

  lemma HandsOverNow(log: seq<Action>, a: Action)
    requires HandsOver(log)
    ensures HandsOver(log + [a] + [Transferred])
  {
    var after := log + [a] + [Transferred];
    forall i | 0 <= i < |after| && (after[i] == Exited(true) || after[i] == Waited(false))
      ensures i + 1 < |after| && after[i + 1] == Transferred
    {
      if i < |log| {
        assert log[i] == after[i] && log[i + 1] == after[i + 1];
      }
    }
  }

  /** A worker failed in `after` only if one did in `before`. */
  ghost predicate NoNewFailure(before: seq<Action>, after: seq<Action>) {
    (Exited(true) in before <==> Exited(true) in after) && (HandsOver(before) ==> HandsOver(after))
  }

  lemma QuietEntry(log: seq<Action>, a: Action)
    requires a != Exited(true) && a != Waited(false)
    ensures NoNewFailure(log, log + [a])
  {
    if HandsOver(log) {
      HandsOverSnoc(log, a);
    }
  }

  /** The error of a failed worker is waiting to be received, and leadership was handed over. */
  ghost predicate ErrorWaits(s: State) {
    (s.errPending <==> Exited(true) in s.log) && HandsOver(s.log)
  }

  lemma ExitErrs(s: State, failed: bool)
    requires ErrorWaits(s)
    ensures ErrorWaits(Exit(s, failed))
  {
    HandsOverNow(s.log, Exited(true));
    HandsOverSnoc(s.log, Exited(false));
  }

  lemma QuietErrs(s: State, t: State)
    requires ErrorWaits(s) && t.errPending == s.errPending && NoNewFailure(s.log, t.log)
    ensures ErrorWaits(t)
  {
  }

  lemma LeadErrs(s: State, env: Env)
    requires ErrorWaits(s)
    ensures ErrorWaits(Lead(s, env))
  {
    var s1 := Say(s, Built(Leader, env.builds));
    QuietEntry(s.log, Built(Leader, env.builds));
    ReturnErrs(s1.(runnable := None), Failed, env);
    StartErrs(s1.(runnable := Some(Leader), started := true, leader := true), Leader, env);
  }

  lemma StartErrs(s: State, role: Role, env: Env)
    requires ErrorWaits(s)
    ensures ErrorWaits(Start(s, role, env))
  {
    ExitErrs(s, !env.cancelsCleanly);
    QuietEntry(Stop(s, env).log, Started(role));
  }

  lemma ReturnErrs(s: State, outcome: Outcome, env: Env)
    requires ErrorWaits(s)
    ensures ErrorWaits(Return(s, outcome, env))
  {
    ExitErrs(s, !env.cancelsCleanly);
    QuietEntry(Stop(s, env).log, Returned(outcome));
  }

  lemma ReconcileErrs(log: seq<Action>, env: Env)
    ensures NoNewFailure(log, Reconcile(log, env).0)
  {
    var asked := log + [AskedLeader(env.leader == Self)];
    var checked := asked + [Checked(env.diff)];
    var tried := checked + [Recovered(env.recovers)];
    QuietEntry(log, AskedLeader(env.leader == Self));
    QuietEntry(asked, Checked(env.diff));
    QuietEntry(checked, Recovered(env.recovers));
    QuietEntry(tried, Transferred);
  }

  lemma VerifyErrs(log: seq<Action>, env: Env)
    ensures NoNewFailure(log, VerifyState(log, env).0)
  {
    QuietEntry(log, Checked(env.diff));
    QuietEntry(log + [Checked(env.diff)], Recovered(env.recovers));
  }

  lemma BecomeLeaderErrs(s: State, env: Env)
    requires ErrorWaits(s)
    ensures ErrorWaits(BecomeLeader(s, env))
  {
    if env.landed {
      LandedErrs(s, env);
    } else {
      HandsOverNow(s.log, Waited(false));
    }
  }

  lemma LandedErrs(s: State, env: Env)
    requires ErrorWaits(s) && env.landed
    ensures ErrorWaits(BecomeLeader(s, env))
  {
    var s1 := Say(s, Waited(true));
    QuietEntry(s.log, Waited(true));
    var s2 := s1.(log := Reconcile(s1.log, env).0);
    ReconcileErrs(s1.log, env);
    QuietErrs(s1, s2);
    ReturnErrs(s2, Failed, env);
    ExitErrs(s2, !env.cancelsCleanly);
    LeadErrs(Stop(s2, env), env);
    LeadErrs(s1, env);
  }

  lemma FollowErrs(s: State, verify: bool, env: Env)
    requires ErrorWaits(s)
    ensures ErrorWaits(Follow(s, verify, env))
  {
    var s1 := Say(s.(started := true), Built(Follower, env.builds));
    var v := if verify then VerifyState(s1.log, env) else (s1.log, true);
    var s2 := s1.(runnable := Some(Follower), log := v.0);
    QuietEntry(s.log, Built(Follower, env.builds));
    VerifyErrs(s1.log, env);
    QuietErrs(s1, s2);
    ReturnErrs(s1.(runnable := None), Failed, env);
    ReturnErrs(s2, Failed, env);
    StartErrs(s2, Follower, env);
  }

  lemma StepErrs(s: State, e: Event)
    requires ErrorWaits(s)
    ensures ErrorWaits(Step(s, e))
  {
    match e
    case LeaderChanged(became, env) =>
      BecomeLeaderErrs(s, env);
      ReturnErrs(s, LeadershipLost, env);
      FollowErrs(s, true, env);
    case Tick(env) => FollowErrs(s.(ticking := false), false, env);
    case WorkerExits(failed) => ExitErrs(s, failed);
    case ErrorReceived(env) => ReturnErrs(s, WorkerFailed, env);
    case Cancelled(env) => ReturnErrs(s, ContextDone, env);
  }

  /** The ticker has found a leader. */
  predicate KnewLeader(events: seq<Event>) {
    exists i :: 0 <= i < |events| && events[i].Tick? && events[i].env.leader != Nobody
  }

  /** The variables of a running loop, in terms of what happened. */
  ghost predicate Means(s: State, events: seq<Event>) {
    s.result.None? ==>
      && (s.leader <==> Started(Leader) in s.log)
      && (s.started <==> Started(Leader) in s.log || Started(Follower) in s.log)
      && (s.errPending <==> Exited(true) in s.log)
      && (s.ticking <==> !KnewLeader(events))
  }

  lemma {:induction false} TickerMeans(events: seq<Event>)
    ensures ErrorWaits(Run(INIT, events))
    ensures Run(INIT, events).result.None? ==> (Run(INIT, events).ticking <==> !KnewLeader(events))
    decreases |events|
  {
    if events != [] {
      var n := |events| - 1;
      var before, e := events[..n], events[n];
      TickerMeans(before);
      assert events == before + [e];
      RunSnoc(INIT, before, e);
      StepErrs(Run(INIT, before), e);
      TickStep(Run(INIT, before), e);
      assert KnewLeader(events) <==> KnewLeader(before) || (e.Tick? && e.env.leader != Nobody) by {
        forall i | 0 <= i < n ensures events[i] == before[i] {
        }
        assert events[n] == e;
      }
    }
  }

  lemma TickStep(s: State, e: Event)
    ensures Step(s, e).result.None? ==>
              s.result.None? && (Step(s, e).ticking <==> s.ticking && !(e.Tick? && e.env.leader != Nobody))
  {
  }

  /** Over every run: each failed worker and each wait in vain is followed by handing leadership over. */
  lemma LeadershipIsHandedOver(events: seq<Event>)
    ensures HandsOver(Run(INIT, events).log)
  {
    TickerMeans(events);
  }

  lemma RunMeans(events: seq<Event>)
    ensures Means(Run(INIT, events), events)
  {
    WatchIsFaithful();
    RunKeepsInv(Watch, INIT, events);
    WatchRemembers(Run(INIT, events).log);
    TickerMeans(events);
  }

  /** The follower's state may be used: there is no Raft state yet, or the follower is not ahead of it
      or was brought back. */
  predicate Verified(env: Env) {
    || env.raftHeight.None? || env.raftHeight.value == 0
    || (env.diff.Some? && (env.diff.value <= 0 || env.recovers))
  }

  /** A running follower may hand over: this node leads, and it is in sync or was brought there. */
  predicate Synced(env: Env) {
    env.diff.Some? && (env.diff.value == 0 || env.recovers)
  }

  predicate AnyStarted(log: seq<Action>) {
    Started(Leader) in log || Started(Follower) in log
  }

  /** The loop gets to build a leader, or a follower. */
  ghost predicate BuildsLeader(events: seq<Event>, log: seq<Action>, e: Event) {
    && e.LeaderChanged? && e.becameLeader && Started(Leader) !in log && e.env.landed
    && (AnyStarted(log) ==> e.env.leader == Self && Synced(e.env))
  }

  ghost predicate BuildsFollower(events: seq<Event>, log: seq<Action>, e: Event) {
    && !AnyStarted(log)
    && ((e.LeaderChanged? && !e.becameLeader) || (e.Tick? && e.env.leader == Other && !KnewLeader(events)))
  }

  lemma LeadResult(s: State, env: Env)
    requires s.result.None?
    ensures Lead(s, env).result == if env.builds then None else Some(Failed)
  {
  }

  lemma BecomeLeaderResult(s: State, env: Env)
    requires s.result.None?
    ensures BecomeLeader(s, env).result ==
            if env.landed && (if s.started then env.leader == Self && !(Synced(env) && env.builds) else !env.builds)
            then Some(Failed) else None
  {
    var s1 := Say(s, Waited(env.landed));
    var s2 := s1.(log := Reconcile(s1.log, env).0);
    assert Stop(s2, env).result.None?;
    LeadResult(Stop(s2, env), env);
    LeadResult(s1, env);
  }

  lemma FollowResult(s: State, verify: bool, env: Env)
    requires s.result.None?
    ensures Follow(s, verify, env).result == if env.builds && (verify ==> Verified(env)) then None else Some(Failed)
  {
  }

  /** What one round of a running loop returns, by its variables. */
  lemma StepResult(s: State, e: Event)
    requires s.result.None?
    ensures Step(s, e).result ==
            match e
            case LeaderChanged(became, env) =>
              if became then (if s.leader then None else BecomeLeader(s, env).result)
              else if s.leader then Some(LeadershipLost)
              else if s.started then None else Follow(s, true, env).result
            case Tick(env) =>
              if s.ticking && env.leader == Other && !s.started then Follow(s.(ticking := false), false, env).result
              else None
            case WorkerExits(_) => None
            case ErrorReceived(_) => if s.errPending then Some(WorkerFailed) else None
            case Cancelled(_) => Some(ContextDone)
  {
  }

  /** Exactly when a running loop returns, and with what. */
  lemma ReturnsIff(events: seq<Event>, e: Event)
    requires Run(INIT, events).result.None?
    ensures
      var log, r := Run(INIT, events).log, Run(INIT, events + [e]).result;
      && (r == Some(LeadershipLost) <==> e.LeaderChanged? && !e.becameLeader && Started(Leader) in log)
      && (r == Some(ContextDone) <==> e.Cancelled?)
      && (r == Some(WorkerFailed) <==> e.ErrorReceived? && Exited(true) in log)
      && (r == Some(Failed) <==>
            || (BuildsLeader(events, log, e) && !e.env.builds)
            || (e.LeaderChanged? && e.becameLeader && Started(Leader) !in log && e.env.landed && AnyStarted(log)
                && e.env.leader == Self && !Synced(e.env))
            || (BuildsFollower(events, log, e) && !(e.env.builds && (e.LeaderChanged? ==> Verified(e.env)))))
  {
    var s := Run(INIT, events);
    RunSnoc(INIT, events, e);
    RunMeans(events);
    StepResult(s, e);
    if e.LeaderChanged? {
      BecomeLeaderResult(s, e.env);
      FollowResult(s, true, e.env);
    } else if e.Tick? {
      FollowResult(s.(ticking := false), false, e.env);
    }
  }

  /** A loop that leads and learns that it no longer does, one that is cancelled, and one that receives
      the error of a failed worker all return, with the right outcome and with every worker ended. */
  lemma EndsWhenItMust(events: seq<Event>, env: Env)
    requires Run(INIT, events).result.None?
    ensures Started(Leader) in Run(INIT, events).log ==>
              EndedWith(Run(INIT, events + [LeaderChanged(false, env)]), LeadershipLost)
    ensures EndedWith(Run(INIT, events + [Cancelled(env)]), ContextDone)
    ensures Exited(true) in Run(INIT, events).log ==>
              EndedWith(Run(INIT, events + [ErrorReceived(env)]), WorkerFailed)
  {
    if Started(Leader) in Run(INIT, events).log {
      ReturnsIff(events, LeaderChanged(false, env));
      LeavesNothing(events + [LeaderChanged(false, env)]);
    }
    ReturnsIff(events, Cancelled(env));
    LeavesNothing(events + [Cancelled(env)]);
    if Exited(true) in Run(INIT, events).log {
      ReturnsIff(events, ErrorReceived(env));
      LeavesNothing(events + [ErrorReceived(env)]);
    }
  }

  /** The loop has returned: that is its last action, and every worker it started has ended. */
  ghost predicate EndedWith(s: State, outcome: Outcome) {
    && s.result == Some(outcome) && s.log != [] && s.log[|s.log| - 1] == Returned(outcome)
    && forall i :: 0 <= i < |s.log| && s.log[i].Started? ==> ExitsAfter(s.log, i)
  }

  lemma {:induction false} LeavesNothing(events: seq<Event>)
    ensures
      var s := Run(INIT, events);
      s.result.Some? ==> EndedWith(s, s.result.value)
    decreases |events|
  {
    EveryRunIsSafe(events);
    if events != [] {
      var n := |events| - 1;
      LeavesNothing(events[..n]);
      RunSnoc(INIT, events[..n], events[n]);
      assert events == events[..n] + [events[n]];
      ReturnIsLogged(Run(INIT, events[..n]), events[n]);
    }
  }

  /** A return is the last action. */
  ghost predicate ReturnLast(s: State) {
    s.result.Some? ==> s.log != [] && s.log[|s.log| - 1] == Returned(s.result.value)
  }

  lemma ReturnedLast(s: State, outcome: Outcome, env: Env)
    ensures ReturnLast(Return(s, outcome, env))
  {
  }

  lemma LeadReturnsLast(s: State, env: Env)
    requires s.result.None?
    ensures ReturnLast(Lead(s, env))
  {
    LeadResult(s, env);
    ReturnedLast(Say(s, Built(Leader, env.builds)).(runnable := None), Failed, env);
  }

  lemma BecomeLeaderReturnsLast(s: State, env: Env)
    requires s.result.None?
    ensures ReturnLast(BecomeLeader(s, env))
  {
    var s1 := Say(s, Waited(env.landed));
    var s2 := s1.(log := Reconcile(s1.log, env).0);
    assert Stop(s2, env).result.None?;
    ReturnedLast(s2, Failed, env);
    LeadReturnsLast(Stop(s2, env), env);
    LeadReturnsLast(s1, env);
  }

  lemma FollowReturnsLast(s: State, verify: bool, env: Env)
    requires s.result.None?
    ensures ReturnLast(Follow(s, verify, env))
  {
    FollowResult(s, verify, env);
    var s1 := Say(s.(started := true), Built(Follower, env.builds));
    var v := if verify then VerifyState(s1.log, env) else (s1.log, true);
    ReturnedLast(s1.(runnable := None), Failed, env);
    ReturnedLast(s1.(runnable := Some(Follower), log := v.0), Failed, env);
  }

  lemma ReturnIsLogged(s: State, e: Event)
    requires ReturnLast(s)
    ensures ReturnLast(Step(s, e))
  {
    if s.result.None? {
      StepResult(s, e);
      match e
      case LeaderChanged(became, env) =>
        BecomeLeaderReturnsLast(s, env);
        ReturnedLast(s, LeadershipLost, env);
        FollowReturnsLast(s, true, env);
      case Tick(env) => FollowReturnsLast(s.(ticking := false), false, env);
      case WorkerExits(failed) =>
      case ErrorReceived(env) => ReturnedLast(s, WorkerFailed, env);
      case Cancelled(env) => ReturnedLast(s, ContextDone, env);
    }
  }

  ghost predicate NoNewLeader(before: seq<Action>, after: seq<Action>) {
    Started(Leader) in after ==> Started(Leader) in before
  }

  lemma ReturnLeaders(s: State, outcome: Outcome, env: Env)
    ensures NoNewLeader(s.log, Return(s, outcome, env).log)
  {
  }

  lemma FollowLeaders(s: State, verify: bool, env: Env)
    ensures NoNewLeader(s.log, Follow(s, verify, env).log)
  {
    var s1 := Say(s.(started := true), Built(Follower, env.builds));
    var v := if verify then VerifyState(s1.log, env) else (s1.log, true);
    assert NoNewLeader(s1.log, v.0);
    ReturnLeaders(s1.(runnable := None), Failed, env);
    ReturnLeaders(s1.(runnable := Some(Follower), log := v.0), Failed, env);
  }

  lemma LeadStarts(s: State, env: Env)
    requires Started(Leader) !in s.log
    ensures Started(Leader) in Lead(s, env).log <==> env.builds
  {
    var s1 := Say(s, Built(Leader, env.builds));
    ReturnLeaders(s1.(runnable := None), Failed, env);
  }

  lemma BecomeLeaderStarts(s: State, env: Env)
    requires Started(Leader) !in s.log
    ensures Started(Leader) in BecomeLeader(s, env).log <==>
            env.landed && env.builds && (s.started ==> env.leader == Self && Synced(env))
  {
    var s1 := Say(s, Waited(env.landed));
    if env.landed && s1.started {
      ReconcileLeaders(s1.log, env);
      var s2 := s1.(log := Reconcile(s1.log, env).0);
      ReturnLeaders(s2, Failed, env);
      assert NoNewLeader(s2.log, Stop(s2, env).log);
      LeadStarts(Stop(s2, env), env);
    } else if env.landed {
      LeadStarts(s1, env);
    }
  }

  lemma ReconcileLeaders(log: seq<Action>, env: Env)
    ensures NoNewLeader(log, Reconcile(log, env).0)
  {
  }

  /** Exactly when a leader is started: on becoming leader, once the logs have landed, if the factory
      builds it and a follower that ran before is found in sync or recovered on the leading node. */
  lemma LeaderStartsIff(events: seq<Event>, e: Event)
    requires Run(INIT, events).result.None? && Started(Leader) !in Run(INIT, events).log
    ensures Started(Leader) in Run(INIT, events + [e]).log <==>
            BuildsLeader(events, Run(INIT, events).log, e) && e.env.builds
  {
    var s := Run(INIT, events);
    RunSnoc(INIT, events, e);
    RunMeans(events);
    match e
    case LeaderChanged(became, env) =>
      BecomeLeaderStarts(s, env);
      FollowLeaders(s, true, env);
    case Tick(env) => FollowLeaders(s.(ticking := false), false, env);
    case WorkerExits(failed) =>
    case ErrorReceived(env) => ReturnLeaders(s, WorkerFailed, env);
    case Cancelled(env) => ReturnLeaders(s, ContextDone, env);
  }

  lemma FollowStarts(s: State, verify: bool, env: Env)
    requires Started(Follower) !in s.log
    ensures Started(Follower) in Follow(s, verify, env).log <==> env.builds && (verify ==> Verified(env))
  {
    var s1 := Say(s.(started := true), Built(Follower, env.builds));
    var v := if verify then VerifyState(s1.log, env) else (s1.log, true);
    VerifyLogs(s1.log, env);
    ReturnLogs(s1.(runnable := None), Failed, env);
    ReturnLogs(s1.(runnable := Some(Follower), log := v.0), Failed, env);
  }

  /** Exactly when a follower is started: when nothing was started yet and another node becomes leader
      or the ticker first finds one, if the factory builds it and, after a change, its state is good. */
  lemma FollowerStartsIff(events: seq<Event>, e: Event)
    requires Run(INIT, events).result.None? && Started(Follower) !in Run(INIT, events).log
    ensures Started(Follower) in Run(INIT, events + [e]).log <==>
            BuildsFollower(events, Run(INIT, events).log, e) && e.env.builds && (e.LeaderChanged? ==> Verified(e.env))
  {
    var s := Run(INIT, events);
    RunSnoc(INIT, events, e);
    RunMeans(events);
    match e
    case LeaderChanged(became, env) =>
      BecomeLeaderLogs(s, env);
      ReturnLogs(s, LeadershipLost, env);
      FollowStarts(s, true, env);
    case Tick(env) => FollowStarts(s.(ticking := false), false, env);
    case WorkerExits(failed) => ExitLogs(s, failed);
    case ErrorReceived(env) => ReturnLogs(s, WorkerFailed, env);
    case Cancelled(env) => ReturnLogs(s, ContextDone, env);
  }
}

module ElectionLoop {
  import opened Basics
  import opened Election

  /** Run with its local variables as fields; the log is what it did so far. */
  class DynamicLeaderElection {
    var isStarted: bool
    var isCurrentlyLeader: bool
    var runnable: Option<Role>
    var worker: Option<Role>
    var tickerOn: bool
    var errPending: bool
    var result: Option<Outcome>
    var log: seq<Action>

    constructor ()
      ensures View() == INIT
    {
      isStarted, isCurrentlyLeader, runnable, worker := false, false, None, None;
      tickerOn, errPending, result, log := true, false, None, [];
    }

    ghost function View(): State
      reads this
    {
      State(isStarted, isCurrentlyLeader, runnable, worker, tickerOn, errPending, result, log)
    }

    method Note(a: Action)
      modifies `log
      ensures log == old(log) + [a]
    {
      log := log + [a];
    }

    method WorkerEnds(failed: bool)
      modifies `worker, `errPending, `log
      ensures View() == Exit(old(View()), failed)
    {
      if worker.None? {
        return;
      }
      worker := None;
      Note(Exited(failed));
      if failed {
        Note(Transferred);
        errPending := true;
      }
    }

    method StartWorker(role: Role, env: Env)
      modifies `worker, `errPending, `log
      ensures View() == Start(old(View()), role, env)
    {
      WorkerEnds(!env.cancelsCleanly);
      worker := Some(role);
      Note(Started(role));
    }

    method Finish(outcome: Outcome, env: Env)
      modifies `worker, `errPending, `log, `result
      ensures View() == Return(old(View()), outcome, env)
    {
      WorkerEnds(!env.cancelsCleanly);
      result := Some(outcome);
      Note(Returned(outcome));
    }

    method OnBecameLeader(env: Env)
      modifies this
      ensures View() == BecomeLeader(old(View()), env)
    {
      Note(Waited(env.landed));
      if !env.landed {
        Note(Transferred);
        return;
      }
      if isStarted {
        var next := ReconcileFollower(env);
        if next == Continue {
          return;
        }
        if next == Fail {
          Finish(Failed, env);
          return;
        }
        WorkerEnds(!env.cancelsCleanly);
      }
      StartLeader(env);
    }

    method ReconcileFollower(env: Env) returns (next: Handover)
      modifies `log
      ensures (log, next) == Reconcile(old(log), env)
    {
      Note(AskedLeader(env.leader == Self));
      if env.leader != Self {
        return Continue;
      }
      Note(Checked(env.diff));
      if env.diff.None? {
        return Fail;
      }
      if env.diff.value != 0 {
        Note(Recovered(env.recovers));
        if !env.recovers {
          Note(Transferred);
          return Fail;
        }
      }
      return Proceed;
    }

    method StartLeader(env: Env)
      modifies this
      ensures View() == Lead(old(View()), env)
    {
      Note(Built(Leader, env.builds));
      if !env.builds {
        runnable := None;
        Finish(Failed, env);
        return;
      }
      runnable := Some(Leader);
      isStarted := true;
      isCurrentlyLeader := true;
      StartWorker(Leader, env);
    }

    method StartFollower(verify: bool, env: Env)
      modifies this
      ensures View() == Follow(old(View()), verify, env)
    {
      isStarted := true;
      Note(Built(Follower, env.builds));
      if !env.builds {
        runnable := None;
        Finish(Failed, env);
        return;
      }
      runnable := Some(Follower);
      if verify {
        var ok := CheckFollower(env);
        if !ok {
          Finish(Failed, env);
          return;
        }
      }
      StartWorker(Follower, env);
    }

    method CheckFollower(env: Env) returns (ok: bool)
      modifies `log
      ensures (log, ok) == VerifyState(old(log), env)
    {
      if env.raftHeight.None? || env.raftHeight.value == 0 {
        return true;
      }
      Note(Checked(env.diff));
      if env.diff.None? {
        return false;
      }
      if env.diff.value == 0 {
        return true;
      }
      if env.diff.value < 0 {
        return true;
      }
      Note(Recovered(env.recovers));
      return env.recovers;
    }

    method OnTicker(env: Env)
      modifies this
      ensures View() == OnTick(old(View()), env)
    {
      if env.leader == Nobody {
        return;
      }
      tickerOn := false;
      if isStarted {
        return;
      }
      if env.leader == Self {
        return;
      }
      StartFollower(false, env);
    }

    method Handle(e: Event)
      requires result.None?
      modifies this
      ensures View() == Step(old(View()), e)
    {
      match e
      case LeaderChanged(becameLeader, env) =>
        if becameLeader && !isCurrentlyLeader {
          OnBecameLeader(env);
        } else if !becameLeader && isCurrentlyLeader {
          Finish(LeadershipLost, env);
        } else if !becameLeader && !isCurrentlyLeader && !isStarted {
          StartFollower(true, env);
        }
      case Tick(env) =>
        if tickerOn {
          OnTicker(env);
        }
      case WorkerExits(failed) => WorkerEnds(failed);
      case ErrorReceived(env) =>
        if errPending {
          Finish(WorkerFailed, env);
        }
      case Cancelled(env) => Finish(ContextDone, env);
    }

    /** The loop over the events of one run, left at the first return. */
    method RunLoop(events: seq<Event>) returns (outcome: Option<Outcome>)
      modifies this
      ensures View() == Run(old(View()), events) && outcome == result
    {
      var i := 0;
      while i < |events| && result.None?
        invariant i <= |events|
        invariant Run(View(), events[i..]) == Run(old(View()), events)
      {
        Handle(events[i]);
        i := i + 1;
      }
      if result.Some? {
        ReturnedStays(View(), events[i..]);
      }
      return result;
    }
  }

  lemma {:induction false} ReturnedStays(s: State, events: seq<Event>)
    requires s.result.Some?
    ensures Run(s, events) == s
    decreases events
  {
    if events != [] {
      ReturnedStays(s, events[1..]);
    }
  }
}

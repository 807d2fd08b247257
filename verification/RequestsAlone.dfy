/** A request run alone leaves what its guard says, and each check admits exactly up to its limit. */
module RequestsAlone {
  import opened Lists
  import opened RateLimits

  // ----- what one guard or release does to the counters -----

  /** One more on the counter, which expires one window from now when it is new and keeps its expiry otherwise. */
  ghost predicate OneMore(s: Store, t: Store, k: Key, now: int, window: int) {
    && k in t && t[k].count == (if k in s then s[k].count else 0) + 1
    && t[k].expires == (if t[k].count == 1 then Some(now + window) else if k in s then s[k].expires else None)
  }

  ghost predicate SameBut(s: Store, t: Store, keys: set<Key>) {
    forall k | k !in keys :: (k in t <==> k in s) && (k in s ==> t[k] == s[k])
  }

  /** The address's counter goes up; the common one only when the address is within its limit. */
  lemma LoginCounts(limits: Limits, s: Store, ip: string, now: int)
    ensures var (t, limited) := LoginOutcome(limits, s, ip, now);
            && SameBut(s, t, {LoginIp(ip), LoginGlobal}) && OneMore(s, t, LoginIp(ip), now, 900)
            && if t[LoginIp(ip)].count > limits.loginIp then limited && SameBut(s, t, {LoginIp(ip)})
               else OneMore(s, t, LoginGlobal, now, 900) && (limited <==> t[LoginGlobal].count > limits.loginGlobal)
  {
  }

  /** One less on the counter, which goes when nothing is left. */
  ghost predicate OneLess(s: Store, t: Store, k: Key) {
    if k in s && s[k].count > 1 then k in t && t[k] == s[k].(count := s[k].count - 1) else k !in t
  }

  lemma ReleaseCounts(s: Store, ip: string)
    ensures var t := ReleaseOutcome(s, ip);
            SameBut(s, t, {LoginIp(ip), LoginGlobal}) && OneLess(s, t, LoginIp(ip)) && OneLess(s, t, LoginGlobal)
  {
  }

  /** A release takes back exactly what an admitted attempt added. */
  lemma ReleaseUndoesAttempt(limits: Limits, s: Store, ip: string, now: int)
    requires forall k | k in s :: s[k].count >= 1
    requires !LoginOutcome(limits, s, ip, now).1
    ensures ReleaseOutcome(LoginOutcome(limits, s, ip, now).0, ip) == s
  {
    var t := ReleaseOutcome(LoginOutcome(limits, s, ip, now).0, ip);
    forall k ensures (k in t <==> k in s) && (k in s ==> t[k] == s[k]) {
    }
  }

  // ----- the request as steps -----

  ghost function Steps(limits: Limits, st: State, pid: int, n: nat): (st': State)
    requires Inv(limits, st)
    ensures Inv(limits, st')
    decreases n
  {
    if n == 0 then st
    else
      EventKeeps(limits, st, Run(pid));
      Steps(limits, After(limits, st, Run(pid)), pid, n - 1)
  }

  ghost function Started(limits: Limits, st: State, pid: int, request: Request): (st': State)
    requires Inv(limits, st)
    ensures Inv(limits, st')
  {
    EventKeeps(limits, st, Spawn(pid, request));
    After(limits, st, Spawn(pid, request))
  }

  lemma TwoSteps(limits: Limits, st: State, pid: int)
    requires Inv(limits, st)
    ensures Inv(limits, After(limits, st, Run(pid)))
    ensures Steps(limits, st, pid, 2) == After(limits, After(limits, st, Run(pid)), Run(pid))
  {
    EventKeeps(limits, st, Run(pid));
    var s1 := After(limits, st, Run(pid));
    EventKeeps(limits, s1, Run(pid));
    assert Steps(limits, st, pid, 2) == Steps(limits, s1, pid, 1) == Steps(limits, After(limits, s1, Run(pid)), pid, 0);
  }

  /** One check was run: counted, and the request let on or not. */
  ghost predicate Checks(limits: Limits, st: State, done: State, pid: int, checks: seq<Key>)
    requires checks != []
  {
    var (store, count) := Increment(st.store, checks[0], st.now);
    && done.store == store && done.now == st.now
    && if count > Limit(limits, checks[0]) then done.tasks == st.tasks[pid := Finished(true)]
       else if |checks| == 1 then done.tasks == st.tasks[pid := Finished(false)]
       else exists id :: done.tasks == st.tasks[pid := Guard(checks[1..], Some(id))]
  }

  lemma CheckStep(limits: Limits, st: State, pid: int, checks: seq<Key>, via: Option<nat>)
    requires Inv(limits, st) && pid in st.tasks && st.tasks[pid] == Guard(checks, via) && checks != []
    ensures Checks(limits, st, After(limits, st, Run(pid)), pid, checks)
  {
  }

  lemma FinishedStays(limits: Limits, st: State, pid: int)
    requires Inv(limits, st) && pid in st.tasks && st.tasks[pid].Finished?
    ensures After(limits, st, Run(pid)) == st
  {
  }

  lemma TwoChecks(limits: Limits, st: State, s1: State, s2: State, pid: int, ip: string)
    requires Checks(limits, st, s1, pid, [LoginIp(ip), LoginGlobal])
    requires if s1.tasks[pid].Finished? then s2 == s1 else Checks(limits, s1, s2, pid, [LoginGlobal])
    ensures var (store, limited) := LoginOutcome(limits, st.store, ip, st.now);
            s2.store == store && s2.tasks == st.tasks[pid := Finished(limited)]
  {
  }

  lemma SecondCheck(limits: Limits, s0: State, s1: State, pid: int, ip: string)
    requires Inv(limits, s1) && Checks(limits, s0, s1, pid, [LoginIp(ip), LoginGlobal])
    ensures var s2 := After(limits, s1, Run(pid));
            if s1.tasks[pid].Finished? then s2 == s1 else Checks(limits, s1, s2, pid, [LoginGlobal])
  {
    assert [LoginIp(ip), LoginGlobal][1..] == [LoginGlobal];
    if s1.tasks[pid].Finished? {
      FinishedStays(limits, s1, pid);
    } else {
      CheckStep(limits, s1, pid, [LoginGlobal], s1.tasks[pid].via);
    }
  }

  lemma AttemptFrom(limits: Limits, st: State, pid: int, ip: string)
    requires Inv(limits, st) && pid in st.tasks && st.tasks[pid] == Guard([LoginIp(ip), LoginGlobal], None)
    ensures var done := Steps(limits, st, pid, 2);
            var (store, limited) := LoginOutcome(limits, st.store, ip, st.now);
            done.store == store && done.tasks == st.tasks[pid := Finished(limited)]
  {
    TwoSteps(limits, st, pid);
    var s1 := After(limits, st, Run(pid));
    CheckStep(limits, st, pid, [LoginIp(ip), LoginGlobal], None);
    SecondCheck(limits, st, s1, pid, ip);
    TwoChecks(limits, st, s1, After(limits, s1, Run(pid)), pid, ip);
  }

  lemma AttemptStarts(limits: Limits, st: State, pid: int, ip: string)
    requires Inv(limits, st) && pid !in st.tasks
    ensures Started(limits, st, pid, LoginAttempt(ip))
         == st.(tasks := st.tasks[pid := Guard([LoginIp(ip), LoginGlobal], None)])
  {
  }

  lemma Overwritten(tasks: map<int, Task>, pid: int, a: Task, b: Task)
    ensures tasks[pid := a][pid := b] == tasks[pid := b]
  {
  }

  /** An attempt that runs alone leaves the store and the answer of the guard. */
  lemma AttemptAlone(limits: Limits, st: State, pid: int, ip: string)
    requires Inv(limits, st) && pid !in st.tasks
    ensures var done := Steps(limits, Started(limits, st, pid, LoginAttempt(ip)), pid, 2);
            var (store, limited) := LoginOutcome(limits, st.store, ip, st.now);
            done.store == store && done.tasks == st.tasks[pid := Finished(limited)]
  {
    var s0 := Started(limits, st, pid, LoginAttempt(ip));
    AttemptStarts(limits, st, pid, ip);
    AttemptFrom(limits, s0, pid, ip);
    Overwritten(st.tasks, pid, s0.tasks[pid], Finished(LoginOutcome(limits, st.store, ip, st.now).1));
  }

  lemma ReleaseStep(limits: Limits, st: State, pid: int, keys: seq<Key>)
    requires Inv(limits, st) && pid in st.tasks && st.tasks[pid] == Release(keys) && keys != []
    ensures var done := After(limits, st, Run(pid));
            && done.store == Decrement(st.store, keys[0]).0
            && done.tasks == st.tasks[pid := Release(keys[1..])]
  {
  }

  /** And a release after a success. */
  lemma ReleaseAlone(limits: Limits, st: State, pid: int, ip: string)
    requires Inv(limits, st) && pid !in st.tasks
    ensures var done := Steps(limits, Started(limits, st, pid, LoginSuccess(ip)), pid, 2);
            done.store == ReleaseOutcome(st.store, ip)
  {
    var s0 := Started(limits, st, pid, LoginSuccess(ip));
    TwoSteps(limits, s0, pid);
    ReleaseStep(limits, s0, pid, [LoginIp(ip), LoginGlobal]);
    assert [LoginIp(ip), LoginGlobal][1..] == [LoginGlobal];
    ReleaseStep(limits, After(limits, s0, Run(pid)), pid, [LoginGlobal]);
  }

  /** A successful second factor deletes the account's counter. */
  lemma ResetAlone(limits: Limits, st: State, pid: int, user: int)
    requires Inv(limits, st) && pid !in st.tasks
    ensures var done := After(limits, Started(limits, st, pid, TwoFactorSuccess(user)), Run(pid));
            done.store == st.store - {TwoFactor(user)} && done.tasks == st.tasks[pid := Finished(false)]
  {
    var s0 := Started(limits, st, pid, TwoFactorSuccess(user));
    Overwritten(st.tasks, pid, s0.tasks[pid], Finished(false));
  }

  /** When the store cannot be reached, a guard at any of its checks denies and nothing is counted. */
  lemma OutageDenies(limits: Limits, st: State, pid: int)
    requires Inv(limits, st) && pid in st.tasks && !st.tasks[pid].Finished?
    ensures var done := After(limits, st, Fail(pid));
            done.store == st.store && done.tasks == st.tasks[pid := Finished(st.tasks[pid].Guard?)]
  {
  }

  // ----- each check -----

  /** How many a window admits, and how long it lasts. */
  function Allowance(limits: Limits, k: Key): (int, int) {
    match k
    case LoginIp(_) => (limits.loginIp, 900)
    case LoginGlobal => (limits.loginGlobal, 900)
    case TwoFactor(_) => (limits.twoFactor, 900)
    case ResetIp(_) => (10, 900)
    case ResetWindow(_) => (3, 900)
    case ResetDay(_) => (20, 86400)
  }

  /** The checks of a request, in their order. */
  function ChecksOf(r: Request): seq<Key> {
    match r
    case LoginAttempt(ip) => [LoginIp(ip), LoginGlobal]
    case TwoFactorAttempt(user) => [TwoFactor(user)]
    case PasswordReset(ip, address) => [ResetIp(ip), ResetWindow(address), ResetDay(address)]
    case _ => []
  }

  lemma GuardsStart(limits: Limits, st: State, pid: int, request: Request)
    requires Inv(limits, st) && pid !in st.tasks && ChecksOf(request) != []
    ensures Started(limits, st, pid, request) == st.(tasks := st.tasks[pid := Guard(ChecksOf(request), None)])
  {
  }

  /**
   Under any interleaving a check counts one more, and lets the request on exactly when the count is within the
   allowance: to the next check, or through when there is none.
   */
  lemma CheckAdmitsIff(limits: Limits, st: State, pid: int, checks: seq<Key>, via: Option<nat>)
    requires Inv(limits, st) && pid in st.tasks && st.tasks[pid] == Guard(checks, via)
    ensures checks != []
    ensures var done, k := After(limits, st, Run(pid)), checks[0];
            && OneMore(st.store, done.store, k, st.now, Allowance(limits, k).1) && SameBut(st.store, done.store, {k})
            && done.tasks.Keys == st.tasks.Keys
            && (forall p | p in st.tasks && p != pid :: done.tasks[p] == st.tasks[p])
            && if done.store[k].count > Allowance(limits, k).0 then done.tasks[pid] == Finished(true)
               else if |checks| == 1 then done.tasks[pid] == Finished(false)
               else done.tasks[pid].Guard? && done.tasks[pid].checks == checks[1..]
  {
  }
}

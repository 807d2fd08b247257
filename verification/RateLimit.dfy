/** Fixed-window counters shared by concurrent requests: each script is one atomic step, in any interleaving. */
module RateLimits {
  import opened Lists

  datatype Key =
    | LoginIp(ip: string) | LoginGlobal | TwoFactor(user: int)
    | ResetIp(ip: string) | ResetWindow(address: string) | ResetDay(address: string)

  /** The limits taken from the environment. */
  datatype Limits = Limits(loginIp: int, loginGlobal: int, twoFactor: int)

  const WINDOW_SECONDS: int := 15 * 60
  const DAY_SECONDS: int := 24 * 60 * 60

  function Limit(limits: Limits, k: Key): int {
    match k
    case LoginIp(_) => limits.loginIp
    case LoginGlobal => limits.loginGlobal
    case TwoFactor(_) => limits.twoFactor
    case ResetIp(_) => 10
    case ResetWindow(_) => 3
    case ResetDay(_) => 20
  }

  function Ttl(k: Key): (seconds: int)
    ensures seconds > 0
  {
    if k.ResetDay? then DAY_SECONDS else WINDOW_SECONDS
  }

  // ----- the store and its scripts -----

  datatype Counter = Counter(count: int, expires: Option<int>)

  type Store = map<Key, Counter>

  function CountOf(s: Store, k: Key): int { if k in s then s[k].count else 0 }

  function ExpiryOf(s: Store, k: Key): Option<int> { if k in s then s[k].expires else None }

  /** INCR then, on a count of one, EXPIRE. */
  function Increment(s: Store, k: Key, now: int): (Store, int) {
    var count := CountOf(s, k) + 1;
    (s[k := Counter(count, if count == 1 then Some(now + Ttl(k)) else ExpiryOf(s, k))], count)
  }

  /** DECR then, on a count of zero or less, DEL. */
  function Decrement(s: Store, k: Key): (Store, int) {
    var count := CountOf(s, k) - 1;
    (if count <= 0 then s - {k} else s[k := Counter(count, ExpiryOf(s, k))], count)
  }

  /** Keys whose time has come are gone. */
  function Unexpired(s: Store, now: int): Store {
    map k | k in s && (s[k].expires.Some? ==> now < s[k].expires.value) :: s[k]
  }

  /** The per-IP check first; the global counter is only touched when it passes. */
  function LoginOutcome(limits: Limits, s: Store, ip: string, now: int): (Store, bool) {
    var (t, n) := Increment(s, LoginIp(ip), now);
    if n > limits.loginIp then (t, true)
    else
      var (u, m) := Increment(t, LoginGlobal, now);
      (u, m > limits.loginGlobal)
  }

  function ReleaseOutcome(s: Store, ip: string): Store {
    Decrement(Decrement(s, LoginIp(ip)).0, LoginGlobal).0
  }

  class Redis {
    var store: Store
    var now: int

    constructor ()
      ensures store == map[] && now == 0
    {
      store, now := map[], 0;
    }

    method Incr(k: Key) returns (count: int)
      modifies this`store
      ensures count == CountOf(old(store), k) + 1 && store == old(store)[k := Counter(count, ExpiryOf(old(store), k))]
    {
      count := CountOf(store, k) + 1;
      store := store[k := Counter(count, ExpiryOf(store, k))];
    }

    method Decr(k: Key) returns (count: int)
      modifies this`store
      ensures count == CountOf(old(store), k) - 1 && store == old(store)[k := Counter(count, ExpiryOf(old(store), k))]
    {
      count := CountOf(store, k) - 1;
      store := store[k := Counter(count, ExpiryOf(store, k))];
    }

    method IncrementScript(k: Key, ttl: int) returns (count: int)
      requires ttl == Ttl(k)
      modifies this`store
      ensures (store, count) == Increment(old(store), k, now)
    {
      count := Incr(k);
      if count == 1 { store := store[k := store[k].(expires := Some(now + ttl))]; }
      assert store == Increment(old(store), k, now).0;
    }

    method DecrementScript(k: Key) returns (count: int)
      modifies this`store
      ensures (store, count) == Decrement(old(store), k)
    {
      count := Decr(k);
      if count <= 0 { store := store - {k}; }
      assert store == Decrement(old(store), k).0;
    }

    method GuardLoginAttempt(limits: Limits, ip: string) returns (limited: bool)
      modifies this`store
      ensures (store, limited) == LoginOutcome(limits, old(store), ip, now)
    {
      var ipCount := IncrementScript(LoginIp(ip), WINDOW_SECONDS);
      if ipCount > limits.loginIp { return true; }
      var globalCount := IncrementScript(LoginGlobal, WINDOW_SECONDS);
      limited := globalCount > limits.loginGlobal;
    }

    method ReleaseLoginAttempt(ip: string)
      modifies this`store
      ensures store == ReleaseOutcome(old(store), ip)
    {
      var _ := DecrementScript(LoginIp(ip));
      var _ := DecrementScript(LoginGlobal);
    }
  }

  // ----- concurrent requests -----

  /** The calls the routes make: the guards, and the releases after a success. */
  datatype Request =
    | LoginAttempt(ip: string) | TwoFactorAttempt(user: int) | PasswordReset(ip: string, address: string)
    | LoginSuccess(ip: string) | TwoFactorSuccess(user: int)

  /**
   What a request still has to run: checks, in order, until one fails; decrements; or a deletion. `via` is the
   lifetime of the counter that admitted the check before.
   */
  datatype Task =
    | Guard(checks: seq<Key>, via: Option<nat>)
    | Release(keys: seq<Key>)
    | Reset(key: Key)
    | Finished(limited: bool)

  function TaskOf(r: Request): Task {
    match r
    case LoginAttempt(ip) => Guard([LoginIp(ip), LoginGlobal], None)
    case TwoFactorAttempt(user) => Guard([TwoFactor(user)], None)
    case PasswordReset(ip, address) => Guard([ResetIp(ip), ResetWindow(address), ResetDay(address)], None)
    case LoginSuccess(ip) => Release([LoginIp(ip), LoginGlobal])
    case TwoFactorSuccess(user) => Reset(TwoFactor(user))
  }

  /**
   One lifetime of a counter, from creation to deletion: what was done to it, and the checks its
   admissions went on to.
   */
  datatype Life = Life(key: Key, created: int, increments: nat, decrements: nat, admitted: nat, onward: nat)

  datatype State = State(store: Store, now: int, tasks: map<int, Task>, lives: seq<Life>, current: map<Key, nat>)

  const START: State := State(map[], 0, map[], [], map[])

  datatype Event = Spawn(pid: int, request: Request) | Run(pid: int) | Fail(pid: int) | Tick(now: int)

  /** Lifetimes referred to have begun, and the counters stored are those whose lifetime is current. */
  ghost predicate Indexed(st: State) {
    && st.current.Keys == st.store.Keys
    && (forall k | k in st.current :: st.current[k] < |st.lives| && st.lives[st.current[k]].key == k)
    && (forall p | p in st.tasks && st.tasks[p].Guard? ::
          st.tasks[p].checks != [] && (st.tasks[p].via.Some? ==> st.tasks[p].via.value < |st.lives|))
  }

  /** An increment of an absent key begins a lifetime. */
  ghost function Begun(st: State, k: Key): (b: State)
    requires Indexed(st)
    ensures k in b.current && b.current[k] < |b.lives|
    ensures |st.lives| <= |b.lives| && forall i | 0 <= i < |st.lives| :: b.lives[i] == st.lives[i]
  {
    if k in st.current then st
    else st.(lives := st.lives + [Life(k, st.now, 0, 0, 0, 0)], current := st.current[k := |st.lives|])
  }

  ghost function Sent(lives: seq<Life>, via: Option<nat>): (r: seq<Life>)
    requires via.Some? ==> via.value < |lives|
    ensures |r| == |lives| && forall i | 0 <= i < |r| :: r[i] == lives[i].(onward := r[i].onward)
  {
    if via.None? then lives else lives[via.value := lives[via.value].(onward := lives[via.value].onward + 1)]
  }

  ghost function Counted(l: Life, admitted: bool): Life {
    l.(increments := l.increments + 1, admitted := l.admitted + if admitted then 1 else 0)
  }

  /** A guard runs its next check. */
  ghost function Checked(limits: Limits, st: State, pid: int): State
    requires Indexed(st) && pid in st.tasks && st.tasks[pid].Guard?
  {
    var task := st.tasks[pid];
    var k, rest := task.checks[0], task.checks[1..];
    var (store, count) := Increment(st.store, k, st.now);
    var b := Begun(st, k);
    var id, passed := b.current[k], count <= Limit(limits, k);
    var next := if !passed then Finished(true) else if rest == [] then Finished(false) else Guard(rest, Some(id));
    State(store, st.now, st.tasks[pid := next], Sent(b.lives[id := Counted(b.lives[id], passed)], task.via), b.current)
  }

  /** A release runs its next decrement; decrementing an absent key leaves it absent. */
  ghost function Released(st: State, pid: int): State
    requires Indexed(st) && pid in st.tasks && st.tasks[pid].Release?
  {
    var keys := st.tasks[pid].keys;
    if keys == [] then st.(tasks := st.tasks[pid := Finished(false)])
    else
      var k := keys[0];
      var (store, count) := Decrement(st.store, k);
      var tasks := st.tasks[pid := Release(keys[1..])];
      if k !in st.current then st.(store := store, tasks := tasks)
      else
        var id := st.current[k];
        var lives := st.lives[id := st.lives[id].(decrements := st.lives[id].decrements + 1)];
        State(store, st.now, tasks, lives, if count <= 0 then st.current - {k} else st.current)
  }

  ghost function Cleared(st: State, pid: int): State
    requires pid in st.tasks && st.tasks[pid].Reset?
  {
    var k := st.tasks[pid].key;
    st.(store := st.store - {k}, current := st.current - {k}, tasks := st.tasks[pid := Finished(false)])
  }

  /** An unreachable store denies a guard; a release or a deletion is dropped. */
  ghost function Failed(st: State, pid: int): State
    requires pid in st.tasks
  {
    st.(tasks := st.tasks[pid := Finished(st.tasks[pid].Guard?)])
  }

  ghost function Ticked(st: State, now: int): State {
    var store := Unexpired(st.store, now);
    st.(now := now, store := store, current := map k | k in st.current && k in store :: st.current[k])
  }

  /** What one event does; an event that cannot happen changes nothing. */
  ghost function After(limits: Limits, st: State, e: Event): State
    requires Indexed(st)
  {
    match e
    case Spawn(pid, request) => if pid in st.tasks then st else st.(tasks := st.tasks[pid := TaskOf(request)])
    case Run(pid) =>
      if pid !in st.tasks then st
      else (match st.tasks[pid]
            case Guard(_, _) => Checked(limits, st, pid)
            case Release(_) => Released(st, pid)
            case Reset(_) => Cleared(st, pid)
            case Finished(_) => st)
    case Fail(pid) => if pid in st.tasks && !st.tasks[pid].Finished? then Failed(st, pid) else st
    case Tick(now) => if now < st.now then st else Ticked(st, now)
  }

  // ----- the invariant -----

  /** A stored counter: at least 1, the difference of what was added and taken, expiring when set at creation. */
  ghost predicate KeyOk(st: State, k: Key)
    requires Indexed(st) && k in st.store
  {
    var c, l := st.store[k], st.lives[st.current[k]];
    && c.count == l.increments - l.decrements >= 1
    && c.expires == Some(l.created + Ttl(k))
    && l.created <= st.now < l.created + Ttl(k)
  }

  /** Within one lifetime the admissions less the decrements stay within the limit. */
  ghost predicate LifeOk(limits: Limits, l: Life) {
    l.admitted <= l.increments && (l.admitted > 0 ==> l.admitted - l.decrements <= Limit(limits, l.key))
  }

  ghost function Waiting(tasks: map<int, Task>, id: nat): set<int> {
    set p | p in tasks && tasks[p].Guard? && tasks[p].via == Some(id)
  }

  /** A lifetime's admissions cover the next checks run on their strength and those still to run. */
  ghost predicate OnwardOk(st: State, id: nat)
    requires id < |st.lives|
  {
    st.lives[id].onward + |Waiting(st.tasks, id)| <= st.lives[id].admitted
  }

  ghost predicate Inv(limits: Limits, st: State) {
    && Indexed(st)
    && (forall k | k in st.store :: KeyOk(st, k))
    && (forall id | 0 <= id < |st.lives| :: LifeOk(limits, st.lives[id]))
    && (forall id: nat | id < |st.lives| :: OnwardOk(st, id))
  }

  // ----- every event keeps it -----

  /** Changing what one request waits for changes one member of the waiting sets. */
  lemma WaitingChanges(tasks: map<int, Task>, pid: int, next: Task, id: nat)
    ensures var before, after := Waiting(tasks, id), Waiting(tasks[pid := next], id);
            && after - {pid} == before - {pid}
            && (pid in after <==> next.Guard? && next.via == Some(id))
            && |after| == |before| + (if pid in after then 1 else 0) - (if pid in before then 1 else 0)
  {
    var before, after := Waiting(tasks, id), Waiting(tasks[pid := next], id);
    assert after - {pid} == before - {pid};
    CardWithout(before, pid);
    CardWithout(after, pid);
  }

  lemma CardWithout(s: set<int>, x: int)
    ensures |s - {x}| == |s| - if x in s then 1 else 0
  {
    if x in s { assert s == (s - {x}) + {x}; } else { assert s - {x} == s; }
  }

  /** A request that stops waiting, or never waited, leaves the covers intact. */
  lemma NoNewWaiting(limits: Limits, st: State, pid: int, next: Task)
    requires Inv(limits, st) && (next.Guard? ==> next.checks != [] && next.via.None?)
    ensures Inv(limits, st.(tasks := st.tasks[pid := next]))
  {
    var st' := st.(tasks := st.tasks[pid := next]);
    forall id: nat | id < |st'.lives| ensures OnwardOk(st', id) {
      assert OnwardOk(st, id);
      WaitingChanges(st.tasks, pid, next, id);
    }
    forall k | k in st'.store ensures KeyOk(st', k) { assert KeyOk(st, k); }
  }

  /** Fewer counters, the same lifetimes. */
  lemma FewerCounters(limits: Limits, st: State, store: Store, current: map<Key, nat>, now: int)
    requires Inv(limits, st) && current.Keys == store.Keys
    requires forall k | k in store :: k in st.store && store[k] == st.store[k] && current[k] == st.current[k]
    requires forall k | k in store :: st.now <= now && now < st.lives[current[k]].created + Ttl(k)
    ensures Inv(limits, st.(store := store, current := current, now := now))
  {
    var st' := st.(store := store, current := current, now := now);
    forall k | k in store ensures KeyOk(st', k) { assert KeyOk(st, k); }
    forall id: nat | id < |st'.lives| ensures OnwardOk(st', id) { assert OnwardOk(st, id); }
  }

  lemma TickKeeps(limits: Limits, st: State, now: int)
    requires Inv(limits, st) && st.now <= now
    ensures Inv(limits, Ticked(st, now))
  {
    var b := Ticked(st, now);
    forall k | k in b.store ensures now < st.lives[b.current[k]].created + Ttl(k) { assert KeyOk(st, k); }
    FewerCounters(limits, st, b.store, b.current, now);
  }

  lemma ClearKeeps(limits: Limits, st: State, pid: int)
    requires Inv(limits, st) && pid in st.tasks && st.tasks[pid].Reset?
    ensures Inv(limits, Cleared(st, pid))
  {
    var k := st.tasks[pid].key;
    forall x | x in st.store ensures st.now < st.lives[st.current[x]].created + Ttl(x) { assert KeyOk(st, x); }
    var b := st.(store := st.store - {k}, current := st.current - {k});
    FewerCounters(limits, st, b.store, b.current, st.now);
    NoNewWaiting(limits, b, pid, Finished(false));
  }

  /** One decrement of a current counter, before its request is updated. */
  ghost function Lowered(st: State, k: Key): State
    requires Indexed(st) && k in st.current
  {
    var (store, count) := Decrement(st.store, k);
    var id := st.current[k];
    State(store, st.now, st.tasks, st.lives[id := st.lives[id].(decrements := st.lives[id].decrements + 1)],
          if count <= 0 then st.current - {k} else st.current)
  }

  lemma TwoKeysTwoLives(st: State, k: Key, x: Key)
    requires Indexed(st) && k in st.current && x in st.current && x != k
    ensures st.current[x] != st.current[k]
  {
  }

  lemma LoweredOthers(limits: Limits, st: State, k: Key, x: Key)
    requires Inv(limits, st) && k in st.current && x in Lowered(st, k).store && x != k
    ensures KeyOk(Lowered(st, k), x)
  {
    assert KeyOk(st, x);
    TwoKeysTwoLives(st, k, x);
  }

  lemma LoweredCounter(limits: Limits, st: State, k: Key, x: Key)
    requires Inv(limits, st) && k in st.current && x in Lowered(st, k).store
    ensures KeyOk(Lowered(st, k), x)
  {
    if x == k { assert KeyOk(st, k); } else { LoweredOthers(limits, st, k, x); }
  }

  lemma LowerKeeps(limits: Limits, st: State, k: Key)
    requires Inv(limits, st) && k in st.current
    ensures Inv(limits, Lowered(st, k))
  {
    var b := Lowered(st, k);
    assert KeyOk(st, k);
    forall x | x in b.store ensures KeyOk(b, x) { LoweredCounter(limits, st, k, x); }
    forall id: nat | id < |b.lives| ensures LifeOk(limits, b.lives[id]) && OnwardOk(b, id) {
      assert LifeOk(limits, st.lives[id]) && OnwardOk(st, id);
    }
  }

  lemma ReleaseLowers(st: State, pid: int)
    requires Indexed(st) && pid in st.tasks && st.tasks[pid].Release? && st.tasks[pid].keys != []
    ensures var k, next := st.tasks[pid].keys[0], Release(st.tasks[pid].keys[1..]);
            Released(st, pid) == if k in st.current then Lowered(st, k).(tasks := st.tasks[pid := next])
                                 else st.(tasks := st.tasks[pid := next])
  {
    assert st.tasks[pid].keys[0] !in st.store ==> st.store - {st.tasks[pid].keys[0]} == st.store;
  }

  lemma ReleaseKeeps(limits: Limits, st: State, pid: int)
    requires Inv(limits, st) && pid in st.tasks && st.tasks[pid].Release?
    ensures Inv(limits, Released(st, pid))
  {
    var keys := st.tasks[pid].keys;
    if keys == [] {
      NoNewWaiting(limits, st, pid, Finished(false));
    } else {
      ReleaseLowers(st, pid);
      if keys[0] in st.current {
        LowerKeeps(limits, st, keys[0]);
        NoNewWaiting(limits, Lowered(st, keys[0]), pid, Release(keys[1..]));
      } else {
        NoNewWaiting(limits, st, pid, Release(keys[1..]));
      }
    }
  }

  /** The state after a check's increment, its request still waiting as before. */
  ghost function Raised(limits: Limits, st: State, k: Key): State
    requires Indexed(st)
  {
    var (store, count) := Increment(st.store, k, st.now);
    var b := Begun(st, k);
    var id := b.current[k];
    State(store, st.now, st.tasks, b.lives[id := Counted(b.lives[id], count <= Limit(limits, k))], b.current)
  }

  lemma NewLifeIsCovered(limits: Limits, st: State, k: Key)
    requires Inv(limits, st) && k !in st.current
    ensures Waiting(st.tasks, |st.lives|) == {}
  {
    var waiting := Waiting(st.tasks, |st.lives|);
    assert forall p :: p !in waiting;
  }

  lemma RaisedKeys(limits: Limits, st: State, k: Key)
    requires Indexed(st)
    ensures Raised(limits, st, k).current.Keys == Raised(limits, st, k).store.Keys
  {
  }

  lemma RaiseIndexes(limits: Limits, st: State, k: Key)
    requires Inv(limits, st)
    ensures Indexed(Raised(limits, st, k))
  {
    RaisedKeys(limits, st, k);
  }

  lemma RaisedOthers(limits: Limits, st: State, k: Key, x: Key)
    requires Inv(limits, st) && Indexed(Raised(limits, st, k)) && x in st.store && x != k
    ensures KeyOk(Raised(limits, st, k), x)
  {
    assert KeyOk(st, x);
    if k in st.current { TwoKeysTwoLives(st, k, x); }
  }

  lemma RaisedCounter(limits: Limits, st: State, k: Key, x: Key)
    requires Inv(limits, st) && Indexed(Raised(limits, st, k)) && x in Raised(limits, st, k).store
    ensures KeyOk(Raised(limits, st, k), x)
  {
    if x == k {
      if k in st.store { assert KeyOk(st, k); }
    } else {
      RaisedOthers(limits, st, k, x);
    }
  }

  lemma RaisedLife(limits: Limits, st: State, k: Key, id: nat)
    requires Inv(limits, st) && Indexed(Raised(limits, st, k)) && id < |Raised(limits, st, k).lives|
    ensures LifeOk(limits, Raised(limits, st, k).lives[id]) && OnwardOk(Raised(limits, st, k), id)
  {
    if k in st.current { assert KeyOk(st, k); } else { NewLifeIsCovered(limits, st, k); }
    if id < |st.lives| { assert LifeOk(limits, st.lives[id]) && OnwardOk(st, id); }
  }

  /** The counter's life has an admission to spare for each request it lets on. */
  lemma AdmissionToSpare(limits: Limits, st: State, k: Key)
    requires Inv(limits, st) && Increment(st.store, k, st.now).1 <= Limit(limits, k)
    ensures var b := Raised(limits, st, k); var id := b.current[k];
            b.lives[id].onward + |Waiting(b.tasks, id)| + 1 <= b.lives[id].admitted
  {
    if k in st.current { assert OnwardOk(st, st.current[k]); } else { NewLifeIsCovered(limits, st, k); }
  }

  lemma CheckIndexes(limits: Limits, st: State, pid: int)
    requires Inv(limits, st) && pid in st.tasks && st.tasks[pid].Guard?
    ensures Indexed(Checked(limits, st, pid))
  {
    var k := st.tasks[pid].checks[0];
    RaiseIndexes(limits, st, k);
    var b, c := Raised(limits, st, k), Checked(limits, st, pid);
    assert c.current == b.current && c.store == b.store;
    forall x | x in c.current ensures c.current[x] < |c.lives| && c.lives[c.current[x]].key == x {
      assert b.lives[b.current[x]].key == x;
    }
  }

  lemma CheckedCounter(limits: Limits, st: State, pid: int, x: Key)
    requires Inv(limits, st) && pid in st.tasks && st.tasks[pid].Guard?
    requires Indexed(Checked(limits, st, pid)) && x in Checked(limits, st, pid).store
    ensures KeyOk(Checked(limits, st, pid), x)
  {
    var k := st.tasks[pid].checks[0];
    RaiseIndexes(limits, st, k);
    RaisedCounter(limits, st, k, x);
    SentKeepsCounter(Raised(limits, st, k), Checked(limits, st, pid), x);
  }

  /** A counter does not care which checks were sent on. */
  lemma SentKeepsCounter(b: State, c: State, x: Key)
    requires Indexed(b) && Indexed(c) && x in b.store && KeyOk(b, x)
    requires c.store == b.store && c.now == b.now && c.current == b.current && |c.lives| == |b.lives|
    requires forall i | 0 <= i < |b.lives| :: c.lives[i] == b.lives[i].(onward := c.lives[i].onward)
    ensures KeyOk(c, x)
  {
  }

  /**
   One check run on the strength of a life uses up one that was waiting; one more waits only on one
   more admission.
   */
  lemma CheckedLife(limits: Limits, st: State, pid: int, id: nat)
    requires Inv(limits, st) && pid in st.tasks && st.tasks[pid].Guard? && id < |Checked(limits, st, pid).lives|
    ensures LifeOk(limits, Checked(limits, st, pid).lives[id]) && OnwardOk(Checked(limits, st, pid), id)
  {
    var k := st.tasks[pid].checks[0];
    RaiseIndexes(limits, st, k);
    RaisedLife(limits, st, k, id);
    if Increment(st.store, k, st.now).1 <= Limit(limits, k) { AdmissionToSpare(limits, st, k); }
    WaitingChanges(st.tasks, pid, Checked(limits, st, pid).tasks[pid], id);
  }

  lemma CheckKeeps(limits: Limits, st: State, pid: int)
    requires Inv(limits, st) && pid in st.tasks && st.tasks[pid].Guard?
    ensures Inv(limits, Checked(limits, st, pid))
  {
    var c := Checked(limits, st, pid);
    CheckIndexes(limits, st, pid);
    forall x | x in c.store ensures KeyOk(c, x) { CheckedCounter(limits, st, pid, x); }
    forall id: nat | id < |c.lives| ensures LifeOk(limits, c.lives[id]) && OnwardOk(c, id) {
      CheckedLife(limits, st, pid, id);
    }
  }

  lemma EventKeeps(limits: Limits, st: State, e: Event)
    requires Inv(limits, st)
    ensures Inv(limits, After(limits, st, e))
  {
    match e
    case Spawn(pid, request) => NoNewWaiting(limits, st, pid, TaskOf(request));
    case Run(pid) =>
      if pid in st.tasks {
        match st.tasks[pid]
        case Guard(_, _) => CheckKeeps(limits, st, pid);
        case Release(_) => ReleaseKeeps(limits, st, pid);
        case Reset(_) => ClearKeeps(limits, st, pid);
        case Finished(_) =>
      }
    case Fail(pid) => if pid in st.tasks { NoNewWaiting(limits, st, pid, Finished(st.tasks[pid].Guard?)); }
    case Tick(now) => if st.now <= now { TickKeeps(limits, st, now); }
  }

  // ----- every interleaving -----

  ghost function RunOf(limits: Limits, events: seq<Event>): (st: State)
    ensures Inv(limits, st)
  {
    if events == [] then START
    else
      var st := RunOf(limits, events[..|events| - 1]);
      EventKeeps(limits, st, events[|events| - 1]);
      After(limits, st, events[|events| - 1])
  }

  /** The counter stored under `k`, in its lifetime. */
  ghost predicate CounterHolds(st: State, k: Key) {
    && k in st.store && k in st.current && st.current[k] < |st.lives| && st.lives[st.current[k]].key == k
    && st.store[k].count >= 1
    && st.store[k].expires == Some(st.lives[st.current[k]].created + Ttl(k))
  }

  /** Admissions less decrements within the limit, and no more next checks than admissions. */
  ghost predicate LifeHolds(limits: Limits, l: Life) {
    && (l.admitted > 0 ==> l.admitted - l.decrements <= Limit(limits, l.key))
    && l.onward <= l.admitted
  }

  lemma InvariantBounds(limits: Limits, st: State)
    requires Inv(limits, st)
    ensures forall k | k in st.store :: CounterHolds(st, k)
    ensures forall l | l in st.lives :: LifeHolds(limits, l)
  {
    forall k | k in st.store ensures CounterHolds(st, k) { assert KeyOk(st, k); }
    forall l | l in st.lives ensures LifeHolds(limits, l) {
      var id :| 0 <= id < |st.lives| && st.lives[id] == l;
      assert LifeOk(limits, l) && OnwardOk(st, id);
    }
  }

  /**
   Under every interleaving of guards, releases, failures and expiries: each stored counter is at least 1 and expires
   one window after its creation; in each lifetime of a counter the admissions less the decrements stay within its
   limit, and no more next checks are run than it admitted requests.
   */
  lemma EveryInterleavingIsBounded(limits: Limits, events: seq<Event>)
    ensures forall k | k in RunOf(limits, events).store :: CounterHolds(RunOf(limits, events), k)
    ensures forall l | l in RunOf(limits, events).lives :: LifeHolds(limits, l)
  {
    InvariantBounds(limits, RunOf(limits, events));
  }

  /** A counter that stays keeps its expiry and its lifetime; a new one holds 1 and expires one window from now. */
  ghost predicate ExpiryKept(st: State, st': State, k: Key)
    requires k in st'.store
  {
    if k in st.store then k in st.current && k in st'.current && st'.store[k].expires == st.store[k].expires
                          && st'.current[k] == st.current[k]
    else st'.store[k] == Counter(1, Some(st.now + Ttl(k)))
  }

  lemma CheckKeepsExpiry(limits: Limits, st: State, pid: int, k: Key)
    requires Inv(limits, st) && pid in st.tasks && st.tasks[pid].Guard? && k in Checked(limits, st, pid).store
    ensures ExpiryKept(st, Checked(limits, st, pid), k)
  {
    if k in st.store { assert KeyOk(st, k); }
  }

  lemma ReleaseKeepsExpiry(limits: Limits, st: State, pid: int, k: Key)
    requires Inv(limits, st) && pid in st.tasks && st.tasks[pid].Release? && k in Released(st, pid).store
    ensures ExpiryKept(st, Released(st, pid), k)
  {
    if st.tasks[pid].keys != [] { ReleaseLowers(st, pid); }
    if k in st.store { assert KeyOk(st, k); }
  }

  /** Set once at creation, never extended, whatever the event. */
  lemma ExpiryIsSetOnce(limits: Limits, st: State, e: Event, k: Key)
    requires Inv(limits, st) && k in After(limits, st, e).store
    ensures ExpiryKept(st, After(limits, st, e), k)
  {
    if e.Run? && e.pid in st.tasks && st.tasks[e.pid].Guard? {
      CheckKeepsExpiry(limits, st, e.pid, k);
    } else if e.Run? && e.pid in st.tasks && st.tasks[e.pid].Release? {
      ReleaseKeepsExpiry(limits, st, e.pid, k);
    }
  }
}

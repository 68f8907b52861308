/** The retry lock under a clock: a token with an expiry, a release that reads and then
deletes, and the replay loop that holds it. */
module Locks {
  import opened Collections
  import Keys

  type Token = nat

  type Time = real

  datatype Entry = Entry(token: Token, expires: Time)

  predicate Live(store: map<string, Entry>, now: Time, key: string) {
    key in store && now < store[key].expires
  }

  // ---- many clients ---------------------------------------------------------------------------

  /** A lock object that believes it owns its key: the token it set, when that runs out,
  and whether a release has already seen the token and is about to delete the key. */
  datatype Client = Client(key: string, token: Token, lease: Time, matched: bool)

  datatype State = State(now: Time, store: map<string, Entry>, clients: map<nat, Client>, used: set<Token>)

  datatype Event =
    | Tick(d: Time)
    | Acquire(c: nat, key: string, ttl: Time, token: Token)
    | Get(c: nat)
    | Delete(c: nat)
    | Crash(c: nat)

  ghost predicate Enabled(s: State, e: Event) {
    match e
    case Tick(d) => d >= 0.0
    case Acquire(c, key, ttl, token) =>
      ttl > 0.0 && token !in s.used && (c in s.clients ==> s.clients[c].key == key && !s.clients[c].matched)
    case Get(c) => c in s.clients && !s.clients[c].matched
    case Delete(c) => c in s.clients && s.clients[c].matched
    case Crash(c) => true
  }

  ghost function Step(s: State, e: Event): State
    requires Enabled(s, e)
  {
    match e
    case Tick(d) => s.(now := s.now + d)
    case Acquire(c, key, ttl, token) =>
      if Live(s.store, s.now, key) then s.(used := s.used + {token})
      else
        State(s.now, s.store[key := Entry(token, s.now + ttl)],
              s.clients[c := Client(key, token, s.now + ttl, false)], s.used + {token})
    case Get(c) =>
      var l := s.clients[c];
      if Live(s.store, s.now, l.key) && s.store[l.key].token == l.token then s.(clients := s.clients[c := l.(matched := true)])
      else s.(clients := s.clients - {c})
    case Delete(c) => s.(store := s.store - {s.clients[c].key}, clients := s.clients - {c})
    case Crash(c) => s.(clients := s.clients - {c})
  }

  const START := State(0.0, map[], map[], {})

  ghost predicate Legal(es: seq<Event>)
    decreases |es|, 0
  {
    es == [] || (Legal(es[..|es| - 1]) && Enabled(End(es[..|es| - 1]), es[|es| - 1]))
  }

  ghost function End(es: seq<Event>): State
    requires Legal(es)
    decreases |es|, 1
  {
    if es == [] then START else Step(End(es[..|es| - 1]), es[|es| - 1])
  }

  /** The delete comes while the deleter's own lease is running, or finds the key free. */
  ghost predicate Harmless(s: State, c: nat)
    requires c in s.clients
  {
    s.now < s.clients[c].lease || !Live(s.store, s.now, s.clients[c].key)
  }

  /** No delete came after its lease while the key had been taken again. */
  ghost predicate Timely(es: seq<Event>)
    requires Legal(es)
  {
    es == [] ||
    var front, last := es[..|es| - 1], es[|es| - 1];
    Timely(front) && (last.Delete? ==> Harmless(End(front), last.c))
  }

  /** Every release is one step: its delete directly follows its read. */
  ghost predicate Atomic(es: seq<Event>) {
    forall i :: 0 <= i < |es| && es[i].Delete? ==> i > 0 && es[i - 1] == Get(es[i].c)
  }

  /** At most one client per key has an unexpired token. */
  ghost predicate Exclusive(s: State) {
    forall c, d :: c in s.clients && d in s.clients && c != d && s.clients[c].key == s.clients[d].key
      ==> s.now >= s.clients[c].lease || s.now >= s.clients[d].lease
  }

  ghost predicate TokensApart(s: State) {
    && (forall c :: c in s.clients ==> s.clients[c].token in s.used)
    && (forall k :: k in s.store ==> s.store[k].token in s.used)
    && (forall c, d :: c in s.clients && d in s.clients && c != d ==> s.clients[c].token != s.clients[d].token)
  }

  ghost predicate LeaseBacked(s: State, l: Client) {
    && (s.now < l.lease ==> l.key in s.store && s.store[l.key] == Entry(l.token, l.lease))
    && (l.key in s.store && s.store[l.key].token == l.token ==> s.store[l.key].expires == l.lease)
  }

  ghost predicate Inv(s: State) {
    TokensApart(s) && forall c :: c in s.clients ==> LeaseBacked(s, s.clients[c])
  }

  lemma InvStep(s: State, e: Event)
    requires Inv(s) && Enabled(s, e)
    requires e.Delete? ==> Harmless(s, e.c)
    ensures Inv(Step(s, e))
  {
    var t := Step(s, e);
    forall c | c in t.clients
      ensures LeaseBacked(t, t.clients[c])
    {
      if c in s.clients {
        assert LeaseBacked(s, s.clients[c]);
      }
    }
  }

  lemma {:induction false} TimelyInv(es: seq<Event>)
    requires Legal(es) && Timely(es)
    ensures Inv(End(es))
  {
    if es != [] {
      TimelyInv(es[..|es| - 1]);
      InvStep(End(es[..|es| - 1]), es[|es| - 1]);
    }
  }

  /** A release in one step is always timely: the token just read is still there. */
  lemma {:induction false} AtomicIsTimely(es: seq<Event>)
    requires Legal(es) && Atomic(es)
    ensures Timely(es)
  {
    if es != [] {
      var front, last := es[..|es| - 1], es[|es| - 1];
      AtomicPrefix(es);
      AtomicIsTimely(front);
      if last.Delete? {
        assert es[|es| - 1].Delete? && front[|front| - 1] == Get(last.c);
        TimelyInv(front);
        GetFindsOwnToken(front[..|front| - 1], last.c);
      }
    }
  }

  lemma AtomicPrefix(es: seq<Event>)
    requires Atomic(es) && es != []
    ensures Atomic(es[..|es| - 1])
  {
    var front := es[..|es| - 1];
    assert forall i :: 0 <= i < |front| ==> front[i] == es[i];
  }

  lemma GetFindsOwnToken(es: seq<Event>, c: nat)
    requires Legal(es + [Get(c)]) && Inv(End(es + [Get(c)])) && c in End(es + [Get(c)]).clients
    ensures Harmless(End(es + [Get(c)]), c)
  {
    assert (es + [Get(c)])[..|es|] == es;
    var s, t := End(es), End(es + [Get(c)]);
    assert t == Step(s, Get(c));
    assert LeaseBacked(t, t.clients[c]);
  }

  /** Mutual exclusion over every run with timely deletes. */
  lemma MutualExclusion(es: seq<Event>)
    requires Legal(es) && Timely(es)
    ensures Exclusive(End(es))
  {
    TimelyInv(es);
    var s := End(es);
    forall c, d | c in s.clients && d in s.clients && c != d && s.clients[c].key == s.clients[d].key
      ensures s.now >= s.clients[c].lease || s.now >= s.clients[d].lease
    {
      assert LeaseBacked(s, s.clients[c]) && LeaseBacked(s, s.clients[d]);
    }
  }

  /** The delete of `c` would take away a live token of somebody else. */
  ghost predicate RemovesOther(s: State, c: nat)
    requires c in s.clients
  {
    Live(s.store, s.now, s.clients[c].key) && s.store[s.clients[c].key].token != s.clients[c].token
  }

  /** After timely deletes, the next delete takes away somebody else's token exactly when
  the deleter's lease has run out and the key has been taken again. */
  lemma RemovesOtherIff(es: seq<Event>, c: nat)
    requires Legal(es) && Timely(es) && c in End(es).clients
    ensures RemovesOther(End(es), c) <==> !Harmless(End(es), c)
  {
    TimelyInv(es);
    assert LeaseBacked(End(es), End(es).clients[c]);
  }

  /** Some other client's lease on the same key is running. */
  ghost predicate OtherHolds(s: State, c: nat)
    requires c in s.clients
  {
    exists d :: d in s.clients && d != c && s.clients[d].key == s.clients[c].key && s.now < s.clients[d].lease
  }

  /** Directly after a delete, somebody can get in beside a running lease. */
  ghost predicate Breakable(s: State, key: string) {
    exists d, ttl, token :: Enabled(s, Acquire(d, key, ttl, token)) && !Exclusive(Step(s, Acquire(d, key, ttl, token)))
  }

  lemma UnusedNumber(used: set<nat>) returns (n: nat)
    ensures forall m :: m in used ==> m < n
  {
    n := 0;
    var left := used;
    while left != {}
      invariant left <= used
      invariant forall m :: m in used && m !in left ==> m < n
      decreases left
    {
      var m :| m in left;
      n, left := if n <= m then m + 1 else n, left - {m};
    }
  }

  lemma AnotherGetsIn(s: State, c: nat, d: nat)
    requires TokensApart(s) && Enabled(s, Delete(c)) && d in s.clients && d != c
    requires s.clients[d].key == s.clients[c].key && s.now < s.clients[d].lease
    ensures Breakable(Step(s, Delete(c)), s.clients[c].key)
  {
    var t, key := Step(s, Delete(c)), s.clients[c].key;
    var n := UnusedNumber(t.clients.Keys);
    var token := UnusedNumber(t.used);
    var e := Acquire(n, key, 1.0, token);
    assert Enabled(t, e);
    var u := Step(t, e);
    assert u.clients[d] == s.clients[d] && u.clients[n].key == key && u.now < u.clients[n].lease;
    assert !Exclusive(u);
  }

  lemma NobodyGetsIn(s: State, c: nat)
    requires Inv(s) && Exclusive(s) && Enabled(s, Delete(c)) && !OtherHolds(s, c)
    ensures !Breakable(Step(s, Delete(c)), s.clients[c].key)
  {
    var t, key := Step(s, Delete(c)), s.clients[c].key;
    forall d, ttl, token | Enabled(t, Acquire(d, key, ttl, token))
      ensures Exclusive(Step(t, Acquire(d, key, ttl, token)))
    {
      var u := Step(t, Acquire(d, key, ttl, token));
      assert forall i :: i in t.clients && t.clients[i].key == key ==> t.now >= t.clients[i].lease;
    }
  }

  /** The converse, at the step: after timely deletes, the next delete opens the key to a
  second holder exactly when another client's lease on it is running, which only an
  untimely delete can find. */
  lemma DeleteBreaksIff(es: seq<Event>, c: nat)
    requires Legal(es) && Timely(es) && Enabled(End(es), Delete(c))
    ensures var s := End(es);
      && (Breakable(Step(s, Delete(c)), s.clients[c].key) <==> OtherHolds(s, c))
      && (OtherHolds(s, c) ==> !Harmless(s, c))
  {
    TimelyInv(es);
    MutualExclusion(es);
    var s := End(es);
    assert LeaseBacked(s, s.clients[c]);
    if OtherHolds(s, c) {
      var d :| d in s.clients && d != c && s.clients[d].key == s.clients[c].key && s.now < s.clients[d].lease;
      assert LeaseBacked(s, s.clients[d]);
      AnotherGetsIn(s, c, d);
    } else {
      NobodyGetsIn(s, c);
    }
  }

  /** A late delete: the first client's token is seen, its lease runs out, a second client
  takes the key, the delete removes that token, and a third client gets in as well. */
  function LateDelete(key: string, ttl: Time): seq<Event> {
    [Acquire(1, key, ttl, 1), Get(1), Tick(ttl), Acquire(2, key, ttl, 2), Delete(1), Acquire(3, key, ttl, 3)]
  }

  lemma LegalSnoc(es: seq<Event>, e: Event)
    requires Legal(es) && Enabled(End(es), e)
    ensures Legal(es + [e]) && End(es + [e]) == Step(End(es), e)
  {
    assert (es + [e])[..|es + [e]| - 1] == es;
  }

  /** Read-then-delete does not keep mutual exclusion without that condition. */
  lemma LateDeleteBreaksExclusion(key: string, ttl: Time)
    requires ttl > 0.0
    ensures Legal(LateDelete(key, ttl)) && !Exclusive(End(LateDelete(key, ttl)))
  {
    var e1, e2, e3, e4 := Acquire(1, key, ttl, 1), Get(1), Tick(ttl), Acquire(2, key, ttl, 2);
    LegalSnoc([], e1);
    assert [] + [e1] == [e1];
    LegalSnoc([e1], e2);
    LegalSnoc([e1] + [e2], e3);
    LegalSnoc([e1] + [e2] + [e3], e4);
    LegalSnoc([e1] + [e2] + [e3] + [e4], Delete(1));
    LegalSnoc([e1] + [e2] + [e3] + [e4] + [Delete(1)], Acquire(3, key, ttl, 3));
    var s := End([e1] + [e2] + [e3] + [e4] + [Delete(1)] + [Acquire(3, key, ttl, 3)]);
    assert LateDelete(key, ttl) == [e1] + [e2] + [e3] + [e4] + [Delete(1)] + [Acquire(3, key, ttl, 3)];
    assert s.now == ttl && s.clients[2].lease == ttl + ttl && s.clients[3].lease == ttl + ttl;
    assert s.clients[2].key == s.clients[3].key;
  }

  // ---- one client ---------------------------------------------------------------------------------

  /** The server as one client sees it: a clock that its own sleeping and sending advance. */
  class RedisServer {
    var now: Time
    var store: map<string, Entry>

    constructor ()
      ensures now == 0.0 && store == map[]
    {
      now, store := 0.0, map[];
    }

    /** `SET key token NX PX ttl`. */
    method SetNx(key: string, token: Token, ttl: Time) returns (ok: bool)
      modifies this`store
      ensures ok <==> !Live(old(store), now, key)
      ensures store == if ok then old(store)[key := Entry(token, now + ttl)] else old(store)
    {
      ok := !Live(store, now, key);
      if ok {
        store := store[key := Entry(token, now + ttl)];
      }
    }

    method Read(key: string) returns (token: Option<Token>)
      ensures token == if Live(store, now, key) then Some(store[key].token) else None
    {
      token := if Live(store, now, key) then Some(store[key].token) else None;
    }

    method Remove(key: string)
      modifies this`store
      ensures store == old(store) - {key}
    {
      store := store - {key};
    }

    method Wait(d: Time)
      requires d >= 0.0
      modifies this`now
      ensures now == old(now) + d
    {
      now := now + d;
    }
  }

  class RedisLock {
    const redis: RedisServer
    const key: string
    const ttl: Time
    var token: Option<Token>

    constructor (redis: RedisServer, key: string, ttl: Time)
      ensures this.redis == redis && this.key == key && this.ttl == ttl && token == None
    {
      this.redis, this.key, this.ttl := redis, key, ttl;
      token := None;
    }

    method Acquire(uuid: Token) returns (ok: bool)
      modifies this, redis`store
      ensures ok <==> !Live(old(redis.store), redis.now, key)
      ensures token == if ok then Some(uuid) else old(token)
      ensures redis.store == if ok then old(redis.store)[key := Entry(uuid, redis.now + ttl)] else old(redis.store)
    {
      ok := redis.SetNx(key, uuid, ttl);
      if ok {
        token := Some(uuid);
      }
    }

    /** Removes the key exactly when it still holds this lock's token. */
    method Release()
      modifies this, redis`store
      ensures token == None
      ensures redis.store ==
              if old(token).Some? && Live(old(redis.store), redis.now, key) && old(redis.store)[key].token == old(token).value
              then old(redis.store) - {key} else old(redis.store)
    {
      if token.None? {
        return;
      }
      var current := redis.Read(key);
      if current == token {
        redis.Remove(key);
      }
      token := None;
    }
  }

  // ---- the replay loop -----------------------------------------------------------------------------

  datatype DlqRecord = DlqRecord(originalTopic: string, payload: string, jobId: Option<string>)

  datatype Replay = Retried | Blocked | Exhausted | Skipped

  const FIRMWARE_DLQ := "firmware.dlq"

  function LockKey(jobId: string): string {
    Keys.Render(Keys.DlqLock(jobId))
  }

  /** A record without a readable job id is filed under one common name. */
  function JobIdOf(r: DlqRecord): string {
    if r.jobId.Some? && r.jobId.value != "" then r.jobId.value else "unknown"
  }

  /** While only the lock of one record is held, exactly the records of the same job are kept
  waiting; those without a readable job id share one. The lock's key is no other key. */
  lemma LockBlocksOnlyItsJob(held: DlqRecord, r: DlqRecord, e: Entry, now: Time, k: Keys.RedisKey)
    requires now < e.expires
    ensures Live(map[LockKey(JobIdOf(held)) := e], now, LockKey(JobIdOf(r))) <==> JobIdOf(r) == JobIdOf(held)
    ensures held.jobId.Some? && r.jobId.Some? && held.jobId.value != "" && r.jobId.value != "" ==>
              (JobIdOf(r) == JobIdOf(held) <==> r.jobId == held.jobId)
    ensures Keys.KnownTopic(k) && LockKey(JobIdOf(r)) == Keys.Render(k) ==> k == Keys.DlqLock(JobIdOf(r))
  {
    var a, b := Keys.DlqLock(JobIdOf(r)), Keys.DlqLock(JobIdOf(held));
    if Keys.Render(a) == Keys.Render(b) {
      Keys.RenderInjective(a, b);
    }
    if Keys.KnownTopic(k) && Keys.Render(a) == Keys.Render(k) {
      Keys.RenderInjective(a, k);
    }
  }

  /** One attempt at producing: whether it worked and how long it took. */
  datatype Attempt = Attempt(ok: bool, seconds: Time)

  function Pow2(n: nat): (p: nat)
    ensures p >= 1
  {
    if n == 0 then 1 else 2 * Pow2(n - 1)
  }

  function Spent(tries: nat -> Attempt, n: nat): Time {
    if n == 0 then 0.0 else Spent(tries, n - 1) + tries(n).seconds
  }

  /** What a run of `n` attempts sleeps in total: the delays double and none follows the last. */
  function Backoff(base: Time, n: nat): Time {
    if n == 0 then 0.0 else base * ((Pow2(n - 1) - 1) as real)
  }

  lemma BackoffStep(base: Time, n: nat)
    requires n > 0
    ensures Backoff(base, n) + base * (Pow2(n - 1) as real) == Backoff(base, n + 1)
  {
    var p := Pow2(n - 1);
    assert Pow2(n) == 2 * p;
    assert ((2 * p - 1) as real) == ((p - 1) as real) + (p as real);
  }

  lemma DoubledDelay(base: Time, n: nat)
    requires n > 0
    ensures base * (Pow2(n - 1) as real) * 2.0 == base * (Pow2(n) as real)
  {
    var p := Pow2(n - 1);
    assert (Pow2(n) as real) == (p as real) * 2.0;
  }

  /** With the defaults, five attempts and half a second, the waits take 7.5 of the lock's
  30 seconds. */
  lemma DefaultBackoff()
    ensures Backoff(0.5, 5) == 7.5 < 30.0
  {
    assert Pow2(4) == 16;
  }

  /** The first of the attempts `1 .. n` that works, or `n` if none does. */
  ghost predicate StopsAt(tries: nat -> Attempt, maxAttempts: int, n: nat, worked: bool) {
    && (forall i: nat :: 1 <= i < n ==> !tries(i).ok)
    && (worked ==> 1 <= n <= maxAttempts && tries(n).ok)
    && (!worked ==> n == (if maxAttempts < 0 then 0 else maxAttempts) && (n > 0 ==> !tries(n).ok))
  }

  /** The lock has been given back: the key is free and no other key was touched. */
  ghost predicate Freed(before: map<string, Entry>, after: map<string, Entry>, now: Time, key: string) {
    !Live(after, now, key) && after - {key} == before - {key}
  }

  method ReplayRecord(redis: RedisServer, r: DlqRecord, tries: nat -> Attempt, maxAttempts: int, baseDelay: Time, ttl: Time,
                      uuid: Token)
    returns (result: Replay, sent: seq<(string, string)>, ghost n: nat)
    requires baseDelay >= 0.0 && ttl > 0.0 && forall i :: tries(i).seconds >= 0.0
    modifies redis
    ensures result == Skipped <==> r.originalTopic == "" || r.originalTopic == FIRMWARE_DLQ
    ensures result == Blocked <==> result != Skipped && Live(old(redis.store), old(redis.now), LockKey(JobIdOf(r)))
    ensures result.Skipped? || result.Blocked? ==> redis.store == old(redis.store) && redis.now == old(redis.now) && sent == []
    ensures result.Retried? || result.Exhausted? ==> StopsAt(tries, maxAttempts, n, result == Retried)
    ensures result.Retried? || result.Exhausted? ==> redis.now == old(redis.now) + Backoff(baseDelay, n) + Spent(tries, n)
    ensures result.Retried? || result.Exhausted? ==> Freed(old(redis.store), redis.store, redis.now, LockKey(JobIdOf(r)))
    ensures sent == if result == Retried then [(r.originalTopic, r.payload)] else []
  {
    sent, n := [], 0;
    if r.originalTopic == "" || r.originalTopic == FIRMWARE_DLQ {
      return Skipped, sent, n;
    }
    var lock := new RedisLock(redis, LockKey(JobIdOf(r)), ttl);
    var ok := lock.Acquire(uuid);
    if !ok {
      return Blocked, sent, n;
    }
    result, n := Attempts(redis, tries, maxAttempts, baseDelay);
    if result == Retried {
      sent := sent + [(r.originalTopic, r.payload)];
    }
    lock.Release();
  }

  method Attempts(redis: RedisServer, tries: nat -> Attempt, maxAttempts: int, baseDelay: Time) returns (result: Replay, ghost n: nat)
    requires baseDelay >= 0.0 && forall i :: tries(i).seconds >= 0.0
    modifies redis`now
    ensures result == Retried || result == Exhausted
    ensures StopsAt(tries, maxAttempts, n, result == Retried)
    ensures redis.now == old(redis.now) + Backoff(baseDelay, n) + Spent(tries, n)
  {
    n := 0;
    var delay := baseDelay;
    var attempt: nat := 1;
    while attempt <= maxAttempts
      invariant n == attempt - 1
      invariant attempt == 1 || attempt <= maxAttempts
      invariant forall i: nat :: 1 <= i < attempt ==> !tries(i).ok
      invariant delay == baseDelay * (Pow2(attempt - 1) as real)
      invariant redis.now == old(redis.now) + Backoff(baseDelay, attempt) + Spent(tries, n)
    {
      redis.Wait(tries(attempt).seconds);
      n := attempt;
      if tries(attempt).ok {
        return Retried, n;
      }
      if attempt >= maxAttempts {
        return Exhausted, n;
      }
      redis.Wait(delay);
      BackoffStep(baseDelay, attempt);
      DoubledDelay(baseDelay, attempt);
      delay := delay * 2.0;
      attempt := attempt + 1;
    }
    result := Exhausted;
  }
}

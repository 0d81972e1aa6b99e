/** The gateway's per-user message limit, over every trace of messages. */
module RateLimiter {
  import opened Decimal
  import Redis

  datatype Message = Message(at: int, user: int)

  /** The keys hold counters only. */
  type Store = Redis.Store<()>

  function Key(user: int): string {
    "ratelimit:" + Render(user)
  }

  lemma KeyInjective(a: int, b: int)
    requires Key(a) == Key(b)
    ensures a == b
  {
    assert Key(a)[10..] == Render(a) && Key(b)[10..] == Render(b);
    RenderInjective(a, b);
  }

  function Count(store: Store, m: Message): Redis.Option<int> {
    Redis.Incremented(store, Key(m.user), m.at)
  }

  /** A message passes when its count is within the limit; a failing script call also stops it. */
  predicate Passes(store: Store, limit: int, m: Message) {
    Count(store, m).Some? && Count(store, m).value <= limit
  }

  class Limiter {
    const rdb: Redis.Client<()>
    const ttl: int
    const limit: int

    constructor (rdb: Redis.Client<()>, ttl: int, limit: int)
      ensures this.rdb == rdb && this.ttl == ttl && this.limit == limit
    {
      this.rdb, this.ttl, this.limit := rdb, ttl, limit;
    }

    method Handle(user: int) returns (ok: bool)
      modifies rdb`store
      ensures ok == Passes(old(rdb.store), limit, Message(rdb.now, user))
      ensures rdb.store == Redis.IncrAndExpire(old(rdb.store), Key(user), ttl, rdb.now)
    {
      var buf := "ratelimit:";
      buf := buf + Render(user);
      var count := rdb.RunIncrAndExpire(buf, ttl);
      if count.None? {
        return false;
      }
      if count.value > limit {
        return false;
      }
      return true;
    }
  }

  /* ---- traces ---- */

  /** The store after the first n messages, starting empty. */
  function After(ttl: int, trace: seq<Message>, n: nat): Store
    requires n <= |trace|
  {
    if n == 0 then map[]
    else Redis.IncrAndExpire(After(ttl, trace, n - 1), Key(trace[n - 1].user), ttl, trace[n - 1].at)
  }

  predicate Accepted(ttl: int, limit: int, trace: seq<Message>, i: nat)
    requires i < |trace|
  {
    Passes(After(ttl, trace, i), limit, trace[i])
  }

  predicate InOrder(trace: seq<Message>) {
    forall i, j | 0 <= i < j < |trace| :: trace[i].at <= trace[j].at
  }

  /** How many of the first n messages are the user's, accepted, and sent in [from, to). */
  function AcceptedIn(ttl: int, limit: int, trace: seq<Message>, n: nat, user: int, from: int, to: int): nat
    requires n <= |trace|
  {
    if n == 0 then 0
    else
      var m := trace[n - 1];
      AcceptedIn(ttl, limit, trace, n - 1, user, from, to)
      + if m.user == user && from <= m.at < to && Accepted(ttl, limit, trace, n - 1) then 1 else 0
  }

  /* ---- one user's counter does not see the others ---- */

  /** The store as if only this user had sent anything. */
  function AfterOwn(ttl: int, trace: seq<Message>, n: nat, user: int): Store
    requires n <= |trace|
  {
    if n == 0 then map[]
    else
      var before, m := AfterOwn(ttl, trace, n - 1, user), trace[n - 1];
      if m.user == user then Redis.IncrAndExpire(before, Key(user), ttl, m.at) else before
  }

  predicate SameEntry(a: Store, b: Store, key: string) {
    (key in a <==> key in b) && (key in a ==> a[key] == b[key])
  }

  lemma OwnStep(a: Store, b: Store, ttl: int, m: Message)
    requires SameEntry(a, b, Key(m.user))
    ensures SameEntry(Redis.IncrAndExpire(a, Key(m.user), ttl, m.at), Redis.IncrAndExpire(b, Key(m.user), ttl, m.at),
                      Key(m.user))
  {
  }

  lemma OtherStep(a: Store, ttl: int, m: Message, user: int)
    requires m.user != user
    ensures SameEntry(Redis.IncrAndExpire(a, Key(m.user), ttl, m.at), a, Key(user))
  {
    if Key(m.user) == Key(user) {
      KeyInjective(m.user, user);
    }
  }

  /** A user's entry is the same whether or not anybody else sends messages. */
  lemma {:induction false} Isolation(ttl: int, trace: seq<Message>, n: nat, user: int)
    requires n <= |trace|
    ensures SameEntry(After(ttl, trace, n), AfterOwn(ttl, trace, n, user), Key(user))
  {
    if n > 0 {
      var m := trace[n - 1];
      Isolation(ttl, trace, n - 1, user);
      if m.user == user {
        OwnStep(After(ttl, trace, n - 1), AfterOwn(ttl, trace, n - 1, user), ttl, m);
      } else {
        OtherStep(After(ttl, trace, n - 1), ttl, m, user);
      }
    }
  }

  /** Whether a message passes is decided by its sender's earlier messages alone. */
  lemma DecidedByOwn(ttl: int, limit: int, trace: seq<Message>, i: nat)
    requires i < |trace|
    ensures Accepted(ttl, limit, trace, i) <==> Passes(AfterOwn(ttl, trace, i, trace[i].user), limit, trace[i])
  {
    Isolation(ttl, trace, i, trace[i].user);
  }

  /* ---- the bound ---- */

  function Capped(c: int, limit: int): int {
    if c <= limit then c else limit
  }

  /** The user's window: when it opened, its count, and how many windows opened since `from` before it. */
  ghost predicate Window(store: Store, ttl: int, limit: int, user: int, from: int, last: int, accepted: nat, j: nat) {
    var key := Key(user);
    (last < from ==> accepted == 0) &&
    if key !in store then accepted == 0
    else
      store[key].value.Counter? && store[key].value.n >= 1 &&
      var start, c := store[key].expires - ttl, store[key].value.n;
      && start <= last
      && (start < from ==> accepted <= Capped(c, limit) - 1)
      && (start >= from ==> from + j * ttl <= start && accepted <= limit - 1 + j * limit + Capped(c, limit))
  }

  lemma WindowStep(store: Store, ttl: int, limit: int, user: int, from: int, last: int, accepted: nat, j: nat, at: int)
    returns (j': nat)
    requires ttl >= 1 && limit >= 1 && last <= at
    requires Window(store, ttl, limit, user, from, last, accepted, j)
    ensures var m := Message(at, user);
            Window(Redis.IncrAndExpire(store, Key(user), ttl, at), ttl, limit, user, from, at,
                   accepted + (if from <= at && Passes(store, limit, m) then 1 else 0), j')
  {
    var key := Key(user);
    j' := j;
    if key in store && store[key].expires <= at {
      var start := store[key].expires - ttl;
      if start >= from {
        j' := j + 1;
        assert (j + 1) * ttl == j * ttl + ttl && (j + 1) * limit == j * limit + limit;
      } else {
        j' := 0;
      }
    } else if key !in store {
      j' := 0;
    }
  }

  lemma WindowIdle(store: Store, ttl: int, limit: int, user: int, from: int, last: int, accepted: nat, j: nat,
                   m: Message)
    requires m.user != user && last <= m.at
    requires Window(store, ttl, limit, user, from, last, accepted, j)
    ensures Window(Redis.IncrAndExpire(store, Key(m.user), ttl, m.at), ttl, limit, user, from, m.at, accepted, j)
  {
    if Key(m.user) == Key(user) {
      KeyInjective(m.user, user);
    }
  }

  lemma {:induction false} WindowAfter(ttl: int, limit: int, trace: seq<Message>, n: nat, user: int, from: int, to: int)
    returns (j: nat)
    requires ttl >= 1 && limit >= 1 && InOrder(trace) && 0 < n <= |trace| && trace[n - 1].at < to
    ensures Window(After(ttl, trace, n), ttl, limit, user, from, trace[n - 1].at,
                   AcceptedIn(ttl, limit, trace, n, user, from, to), j)
  {
    var m, before := trace[n - 1], After(ttl, trace, n - 1);
    var accepted := AcceptedIn(ttl, limit, trace, n - 1, user, from, to);
    var last := m.at;
    j := 0;
    if n > 1 {
      last := trace[n - 2].at;
      j := WindowAfter(ttl, limit, trace, n - 1, user, from, to);
    }
    if m.user == user {
      j := WindowStep(before, ttl, limit, user, from, last, accepted, j, m.at);
    } else {
      WindowIdle(before, ttl, limit, user, from, last, accepted, j, m);
    }
  }

  lemma Scaled(a: int, b: int, c: int)
    requires a <= b && c >= 0
    ensures a * c <= b * c
  {
  }

  lemma Fewer(j: nat, k: nat, ttl: int)
    requires j * ttl < k * ttl && ttl >= 1
    ensures j < k
  {
    if k <= j {
      Scaled(k, j, ttl);
    }
  }

  lemma BoundInWindow(store: Store, ttl: int, limit: int, user: int, from: int, k: nat, last: int, accepted: nat,
                      j: nat)
    requires ttl >= 1 && limit >= 1 && k >= 1 && last < from + k * ttl
    requires Window(store, ttl, limit, user, from, last, accepted, j)
    ensures accepted <= (k + 1) * limit - 1
  {
    Scaled(2, k + 1, limit);
    var key := Key(user);
    if key in store && store[key].expires - ttl >= from {
      Fewer(j, k, ttl);
      Scaled(j, k - 1, limit);
      assert (k + 1) * limit == (k - 1) * limit + 2 * limit;
    }
  }

  lemma {:induction false} BoundBefore(ttl: int, limit: int, trace: seq<Message>, n: nat, user: int, from: int, to: int,
                                       k: nat, bound: nat)
    requires ttl >= 1 && limit >= 1 && k >= 1 && InOrder(trace) && n <= |trace|
    requires to == from + k * ttl && bound == (k + 1) * limit - 1
    ensures AcceptedIn(ttl, limit, trace, n, user, from, to) <= bound
  {
    if n > 0 {
      if trace[n - 1].at >= to {
        BoundBefore(ttl, limit, trace, n - 1, user, from, to, k, bound);
      } else {
        var j := WindowAfter(ttl, limit, trace, n, user, from, to);
        BoundInWindow(After(ttl, trace, n), ttl, limit, user, from, k, trace[n - 1].at,
                      AcceptedIn(ttl, limit, trace, n, user, from, to), j);
      }
    }
  }

  /** In any half-open interval of k lifetimes a user gets at most (k + 1) * limit - 1 messages through. */
  lemma RateBound(ttl: int, limit: int, trace: seq<Message>, n: nat, user: int, from: int, k: nat)
    requires ttl >= 1 && limit >= 1 && k >= 1 && InOrder(trace) && n <= |trace|
    ensures AcceptedIn(ttl, limit, trace, n, user, from, from + k * ttl) <= (k + 1) * limit - 1
  {
    Scaled(1, k + 1, limit);
    BoundBefore(ttl, limit, trace, n, user, from, from + k * ttl, k, (k + 1) * limit - 1);
  }

  /** With a limit below 1 nothing passes. */
  lemma {:induction false} NothingPasses(ttl: int, limit: int, trace: seq<Message>, n: nat,
                                         user: int, from: int, to: int)
    requires limit < 1 && n <= |trace|
    ensures forall key | key in After(ttl, trace, n) ::
              After(ttl, trace, n)[key].value.Counter? && After(ttl, trace, n)[key].value.n >= 1
    ensures AcceptedIn(ttl, limit, trace, n, user, from, to) == 0
  {
    if n > 0 {
      NothingPasses(ttl, limit, trace, n - 1, user, from, to);
    }
  }

  /* ---- the bound is reached ---- */

  lemma {:induction false} PrefixKept(ttl: int, limit: int, trace: seq<Message>, m: Message, n: nat,
                                      user: int, from: int, to: int)
    requires n <= |trace|
    ensures After(ttl, trace + [m], n) == After(ttl, trace, n)
    ensures AcceptedIn(ttl, limit, trace + [m], n, user, from, to) == AcceptedIn(ttl, limit, trace, n, user, from, to)
  {
    if n > 0 {
      assert (trace + [m])[n - 1] == trace[n - 1];
      PrefixKept(ttl, limit, trace, m, n - 1, user, from, to);
    }
  }

  function Total(ttl: int, limit: int, trace: seq<Message>, user: int, from: int, to: int): nat {
    AcceptedIn(ttl, limit, trace, |trace|, user, from, to)
  }

  ghost predicate UpTo(trace: seq<Message>, last: int) {
    InOrder(trace) && forall i | 0 <= i < |trace| :: trace[i].at <= last
  }

  predicate Counts(store: Store, user: int, c: int, expires: int) {
    Key(user) in store && store[Key(user)] == Redis.Entry(Redis.Counter(c), expires)
  }

  /** The trace ends by `last`, the user's count stands at c until `expires`, and `accepted` fell in [from, to). */
  ghost predicate Stands(ttl: int, limit: int, trace: seq<Message>, user: int, from: int, to: int,
                         last: int, c: int, expires: int, accepted: int)
  {
    && UpTo(trace, last)
    && Counts(After(ttl, trace, |trace|), user, c, expires)
    && Total(ttl, limit, trace, user, from, to) == accepted
  }

  lemma CountOnce(store: Store, ttl: int, limit: int, user: int, c: int, expires: int, at: int)
    requires Counts(store, user, c, expires) && limit >= 1 && (at < expires ==> c < limit)
    ensures Passes(store, limit, Message(at, user))
    ensures Counts(Redis.IncrAndExpire(store, Key(user), ttl, at), user,
                   if at < expires then c + 1 else 1, if at < expires && c != 0 then expires else at + ttl)
  {
  }

  lemma Append(ttl: int, limit: int, trace: seq<Message>, m: Message, user: int, from: int, to: int)
    ensures After(ttl, trace + [m], |trace| + 1)
            == Redis.IncrAndExpire(After(ttl, trace, |trace|), Key(m.user), ttl, m.at)
    ensures Total(ttl, limit, trace + [m], user, from, to)
            == Total(ttl, limit, trace, user, from, to)
               + if m.user == user && from <= m.at < to && Passes(After(ttl, trace, |trace|), limit, m) then 1 else 0
  {
    PrefixKept(ttl, limit, trace, m, |trace|, user, from, to);
    assert (trace + [m])[|trace|] == m;
  }

  /** One more message, either within the standing window or opening the next. */
  lemma Send(ttl: int, limit: int, trace: seq<Message>, user: int, from: int, to: int,
             last: int, c: int, expires: int, accepted: int, at: int)
    requires Stands(ttl, limit, trace, user, from, to, last, c, expires, accepted)
    requires last <= at && from <= at < to && limit >= 1 && 1 <= c
    requires at < expires ==> c < limit
    ensures Stands(ttl, limit, trace + [Message(at, user)], user, from, to, at,
                   if at < expires then c + 1 else 1, if at < expires then expires else at + ttl, accepted + 1)
  {
    Append(ttl, limit, trace, Message(at, user), user, from, to);
    CountOnce(After(ttl, trace, |trace|), ttl, limit, user, c, expires, at);
    assert UpTo(trace + [Message(at, user)], at);
  }

  /** Use up the standing window at one moment. */
  lemma {:induction false} Fill(ttl: int, limit: int, trace: seq<Message>, user: int, from: int, to: int,
                                c: int, expires: int, accepted: int, at: int, goal: int) returns (filled: seq<Message>)
    requires Stands(ttl, limit, trace, user, from, to, at, c, expires, accepted)
    requires from <= at < to && at < expires && 1 <= c <= limit && goal == accepted + limit - c
    ensures Stands(ttl, limit, filled, user, from, to, at, limit, expires, goal)
    decreases limit - c
  {
    if c == limit {
      filled := trace;
    } else {
      SendWithin(ttl, limit, trace, user, from, to, c, expires, accepted, at);
      filled := Fill(ttl, limit, trace + [Message(at, user)], user, from, to, c + 1, expires, accepted + 1, at, goal);
    }
  }

  lemma SendWithin(ttl: int, limit: int, trace: seq<Message>, user: int, from: int, to: int,
                   c: int, expires: int, accepted: int, at: int)
    requires Stands(ttl, limit, trace, user, from, to, at, c, expires, accepted)
    requires from <= at < to && at < expires && 1 <= c < limit
    ensures Stands(ttl, limit, trace + [Message(at, user)], user, from, to, at, c + 1, expires, accepted + 1)
  {
    Send(ttl, limit, trace, user, from, to, at, c, expires, accepted, at);
  }

  /** One early message opens a window that is used up at its very end. */
  lemma FirstBurst(ttl: int, limit: int, user: int, to: int) returns (trace: seq<Message>)
    requires ttl >= 2 && limit >= 1 && ttl - 1 < to
    ensures Stands(ttl, limit, trace, user, ttl - 1, to, ttl - 1, limit, ttl, limit - 1)
  {
    var m := Message(0, user);
    Append(ttl, limit, [], m, user, ttl - 1, to);
    assert [] + [m] == [m];
    assert Stands(ttl, limit, [m], user, ttl - 1, to, ttl - 1, 1, ttl, 0);
    trace := Fill(ttl, limit, [m], user, ttl - 1, to, 1, ttl, 0, ttl - 1, limit - 1);
  }

  /** Each later window is used up as it opens. */
  lemma {:induction false} Bursts(ttl: int, limit: int, user: int, to: int, k: nat) returns (trace: seq<Message>)
    requires ttl >= 2 && limit >= 1 && ttl - 1 < to && k * ttl < to
    ensures Stands(ttl, limit, trace, user, ttl - 1, to, if k == 0 then ttl - 1 else k * ttl, limit, k * ttl + ttl,
                   k * limit + limit - 1)
  {
    if k == 0 {
      trace := FirstBurst(ttl, limit, user, to);
    } else {
      var at := k * ttl;
      assert at == (k - 1) * ttl + ttl && k * limit == (k - 1) * limit + limit;
      Scaled(1, k, ttl);
      trace := Bursts(ttl, limit, user, to, k - 1);
      Send(ttl, limit, trace, user, ttl - 1, to, if k == 1 then ttl - 1 else at - ttl, limit, at, k * limit - 1, at);
      trace := Fill(ttl, limit, trace + [Message(at, user)], user, ttl - 1, to, 1, at + ttl, k * limit, at,
                    k * limit + limit - 1);
    }
  }

  /** For every limit and every number of lifetimes some trace reaches the bound. */
  lemma BoundReached(ttl: int, limit: int, user: int, k: nat) returns (trace: seq<Message>, from: int)
    requires ttl >= 2 && limit >= 1 && k >= 1
    ensures InOrder(trace) && Total(ttl, limit, trace, user, from, from + k * ttl) == (k + 1) * limit - 1
  {
    from := ttl - 1;
    assert (k + 1) * limit == k * limit + limit;
    Scaled(1, k, ttl);
    trace := Bursts(ttl, limit, user, from + k * ttl, k);
  }

  ghost predicate OneLifetime(ttl: int, limit: int, trace: seq<Message>, user: int, from: int) {
    InOrder(trace) ==> Total(ttl, limit, trace, user, from, from + ttl) <= if limit < 0 then 0 else limit
  }

  /** What a sliding window would promise: never more than the limit within one lifetime. */
  ghost predicate Sliding(ttl: int, limit: int) {
    forall trace, user, from :: OneLifetime(ttl, limit, trace, user, from)
  }

  /** The project's README calls the limiter a sliding window; it is one exactly when the limit is at most 1. */
  lemma SlidingExactly(ttl: int, limit: int)
    requires ttl >= 2
    ensures Sliding(ttl, limit) <==> limit <= 1
  {
    if limit >= 2 {
      var trace, from := BoundReached(ttl, limit, 0, 1);
      assert !OneLifetime(ttl, limit, trace, 0, from);
    } else {
      forall trace, user, from
        ensures OneLifetime(ttl, limit, trace, user, from)
      {
        AtMostOne(ttl, limit, trace, user, from);
      }
    }
  }

  lemma AtMostOne(ttl: int, limit: int, trace: seq<Message>, user: int, from: int)
    requires ttl >= 2 && limit <= 1
    ensures OneLifetime(ttl, limit, trace, user, from)
  {
    if limit < 1 {
      NothingPasses(ttl, limit, trace, |trace|, user, from, from + ttl);
    } else if InOrder(trace) {
      RateBound(ttl, limit, trace, |trace|, user, from, 1);
    }
  }
}

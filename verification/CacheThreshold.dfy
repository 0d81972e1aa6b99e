/** Which reads make learn-service cache a task, over every serialised run of its handlers. */
module CacheThreshold {
  import opened CacheKeys
  import opened TaskCache
  import Redis

  /** Step i is a read of this position that the database answers. */
  predicate MissAt(run: seq<World>, events: seq<Event>, i: nat, level: string, pos: int)
    requires i < |events| < |run|
  {
    events[i].Read? && events[i].level == level && events[i].pos == pos && Misses(run[i], level, pos)
  }

  /** How many of the steps in [from, to) are. */
  function Count(run: seq<World>, events: seq<Event>, from: nat, to: nat, level: string, pos: int): nat
    requires to <= |events| < |run|
  {
    if to <= from then 0
    else Count(run, events, from, to - 1, level, pos) + if MissAt(run, events, to - 1, level, pos) then 1 else 0
  }

  /** The one deletion that removes this position's counter: its level is the cache prefix and this level. */
  function Reset(level: string, pos: int): Event {
    Delete(CACHE_PREFIX + level, pos)
  }

  /** This answer stands in the cache until `expires`. */
  predicate CacheHolds(store: Redis.Store<Answer>, level: string, pos: int, ans: Answer, expires: int) {
    var key := CacheKey(level, pos);
    key in store && store[key] == Redis.Entry(Redis.Payload(ans), expires)
  }

  /** Read i writes what it answers into the cache, for one task TTL. */
  predicate CachesAt(cfg: Config, run: seq<World>, events: seq<Event>, i: nat, level: string, pos: int)
    requires i < |events| < |run|
  {
    && MissAt(run, events, i, level, pos)
    && CacheHolds(run[i + 1].store, level, pos,
                  Query(run[i].rows, level, pos, events[i].limit, events[i].scan), run[i].now + cfg.taskTtl)
  }

  predicate StillOpen(cfg: Config, run: seq<World>, first: nat, n: nat)
    requires first < |run| && n < |run|
  {
    run[n].now < run[first].now + cfg.countTtl
  }

  /** The read that opened the window standing after n steps; a window ends on expiry, the tenth read, or a reset. */
  function Opening(cfg: Config, run: seq<World>, events: seq<Event>, n: nat, level: string, pos: int)
    : (first: Redis.Option<nat>)
    requires n <= |events| < |run|
    ensures first.Some? ==> first.value < n
  {
    if n == 0 then Redis.None
    else
      var first := Opening(cfg, run, events, n - 1, level, pos);
      if events[n - 1] == Reset(level, pos) then Redis.None
      else if !MissAt(run, events, n - 1, level, pos) then first
      else if first.None? || !StillOpen(cfg, run, first.value, n - 1) then Redis.Some(n - 1)
      else if Count(run, events, first.value, n, level, pos) >= THRESHOLD then Redis.None
      else first
  }

  /* ---- the counter in Redis ---- */

  predicate SameEntry(a: Redis.Store<Answer>, b: Redis.Store<Answer>, key: string) {
    (key in a <==> key in b) && (key in a ==> a[key] == b[key])
  }

  lemma CounterKeyInjective(l1: string, p1: int, l2: string, p2: int)
    requires ReadCounterKey(l1, p1) == ReadCounterKey(l2, p2)
    ensures l1 == l2 && p1 == p2
  {
    var n := |COUNT_PREFIX|;
    assert ReadCounterKey(l1, p1)[n..] == CacheKey(l1, p1) && ReadCounterKey(l2, p2)[n..] == CacheKey(l2, p2);
    CacheKeyInjective(l1, p1, l2, p2);
  }

  /** Nothing else touches the counter of a position. */
  lemma Untouched(cfg: Config, w: World, e: Event, level: string, pos: int)
    requires e != Reset(level, pos)
    requires !(e.Read? && e.level == level && e.pos == pos && Misses(w, level, pos))
    ensures SameEntry(Next(cfg, w, e).store, w.store, ReadCounterKey(level, pos))
  {
    if e.Read? {
      CacheKeyIsNoCounterKey(e.level, e.pos, CacheKey(level, pos));
      if ReadCounterKey(e.level, e.pos) == ReadCounterKey(level, pos) {
        CounterKeyInjective(e.level, e.pos, level, pos);
      }
    } else if e.Delete? {
      CacheKeyIsNoCounterKey(e.level, e.pos, CacheKey(level, pos));
      DeletedIsReadCounter(e.level, e.pos, level, pos);
    }
  }

  lemma ResetRemoves(cfg: Config, w: World, level: string, pos: int)
    requires Fits(level, pos)
    ensures ReadCounterKey(level, pos) !in Next(cfg, w, Reset(level, pos)).store
  {
    DeletedIsReadCounter(CACHE_PREFIX + level, pos, level, pos);
    assert |CacheKey(CACHE_PREFIX + level, pos)| == |ReadCounterKey(level, pos)|;
  }

  /** A count of c in a window that ends at `expires`; 0 for no entry at all. */
  predicate Holds(store: Redis.Store<Answer>, key: string, c: nat, expires: int) {
    if c == 0 then key !in store else key in store && store[key] == Redis.Entry(Redis.Counter(c), expires)
  }

  /** What a database-answered read does to the counter and the cache. */
  lemma MissCounts(cfg: Config, w: World, e: Event, c: nat, expires: int)
    requires e.Read? && Misses(w, e.level, e.pos) && c < THRESHOLD && cfg.taskTtl > 0
    requires Holds(w.store, ReadCounterKey(e.level, e.pos), c, expires)
    ensures var w', hits := Next(cfg, w, e), ReadCounterKey(e.level, e.pos);
            var reopens := c == 0 || expires <= w.now;
            && Holds(w'.store, hits, if reopens then 1 else if c + 1 == THRESHOLD then 0 else c + 1,
                     if reopens then w.now + cfg.countTtl else expires)
            && (CacheHolds(w'.store, e.level, e.pos, Query(w.rows, e.level, e.pos, e.limit, e.scan),
                           w.now + cfg.taskTtl)
                <==> !reopens && c + 1 == THRESHOLD)
  {
    CacheKeyIsNoCounterKey(e.level, e.pos, CacheKey(e.level, e.pos));
  }

  /** The counter of a position is the number of its database-answered reads since its window opened. */
  ghost predicate CounterMatches(cfg: Config, run: seq<World>, events: seq<Event>, n: nat, level: string, pos: int)
    requires n <= |events| < |run|
  {
    var first := Opening(cfg, run, events, n, level, pos);
    var c := if first.None? then 0 else Count(run, events, first.value, n, level, pos);
    && c < THRESHOLD && (first.Some? ==> c > 0)
    && Holds(run[n].store, ReadCounterKey(level, pos), c,
             if first.None? then 0 else run[first.value].now + cfg.countTtl)
  }

  lemma CounterStep(cfg: Config, run: seq<World>, events: seq<Event>, n: nat, level: string, pos: int)
    requires n < |events| < |run| && Fits(level, pos) && cfg.taskTtl > 0
    requires run[n + 1] == Next(cfg, run[n], events[n]) && CounterMatches(cfg, run, events, n, level, pos)
    ensures CounterMatches(cfg, run, events, n + 1, level, pos)
  {
    var first := Opening(cfg, run, events, n, level, pos);
    if events[n] == Reset(level, pos) {
      ResetRemoves(cfg, run[n], level, pos);
    } else if MissAt(run, events, n, level, pos) {
      var c := if first.None? then 0 else Count(run, events, first.value, n, level, pos);
      MissCounts(cfg, run[n], events[n], c, if first.None? then 0 else run[first.value].now + cfg.countTtl);
      assert Count(run, events, n, n + 1, level, pos) == 1;
    } else {
      Untouched(cfg, run[n], events[n], level, pos);
    }
  }

  lemma {:induction false} RunCounts(cfg: Config, run: seq<World>, births: seq<Births>, events: seq<Event>, n: nat,
                                     level: string, pos: int)
    requires IsRun(cfg, run, births, events) && n < |run| && Fits(level, pos) && cfg.taskTtl > 0
    ensures CounterMatches(cfg, run, events, n, level, pos)
  {
    if n > 0 {
      var i := n - 1;
      RunCounts(cfg, run, births, events, i, level, pos);
      assert run[i + 1] == Next(cfg, run[i], events[i]);
      CounterStep(cfg, run, events, i, level, pos);
    }
  }

  /** A read writes the cache exactly when it is the tenth of an open window, whatever happens in between. */
  lemma CachesExactly(cfg: Config, run: seq<World>, births: seq<Births>, events: seq<Event>, i: nat,
                      level: string, pos: int)
    requires IsRun(cfg, run, births, events) && i < |events| && cfg.taskTtl > 0
    requires MissAt(run, events, i, level, pos)
    ensures var first := Opening(cfg, run, events, i, level, pos);
            CachesAt(cfg, run, events, i, level, pos)
            <==> first.Some? && StillOpen(cfg, run, first.value, i)
                 && Count(run, events, first.value, i + 1, level, pos) == 10
  {
    RunCounts(cfg, run, births, events, i, level, pos);
    var first := Opening(cfg, run, events, i, level, pos);
    var c := if first.None? then 0 else Count(run, events, first.value, i, level, pos);
    assert run[i + 1] == Next(cfg, run[i], events[i]);
    MissCounts(cfg, run[i], events[i], c, if first.None? then 0 else run[first.value].now + cfg.countTtl);
  }

  /* ---- without the window ---- */

  lemma {:induction false} TimePasses(cfg: Config, run: seq<World>, births: seq<Births>, events: seq<Event>,
                                      i: nat, j: nat)
    requires IsRun(cfg, run, births, events) && i <= j < |run|
    ensures run[i].now <= run[j].now
  {
    if i < j {
      TimePasses(cfg, run, births, events, i, j - 1);
      assert run[j - 1 + 1] == Next(cfg, run[j - 1], events[j - 1]);
    }
  }

  lemma {:induction false} CountGrows(run: seq<World>, events: seq<Event>, from: nat, j: nat, to: nat,
                                      level: string, pos: int)
    requires from <= j <= to <= |events| < |run|
    ensures Count(run, events, from, j, level, pos) <= Count(run, events, from, to, level, pos)
  {
    if j < to {
      CountGrows(run, events, from, j, to - 1, level, pos);
    }
  }

  /** No reset among the steps in [from, to). */
  predicate NoReset(events: seq<Event>, from: nat, to: nat, level: string, pos: int) {
    forall i | from <= i < to && i < |events| :: events[i] != Reset(level, pos)
  }

  /** A read that finds no live counter opens a window. */
  lemma WindowOpens(cfg: Config, run: seq<World>, births: seq<Births>, events: seq<Event>, m: nat,
                    level: string, pos: int)
    requires IsRun(cfg, run, births, events) && m < |events| && cfg.taskTtl > 0
    requires MissAt(run, events, m, level, pos) && !Redis.Live(run[m].store, ReadCounterKey(level, pos), run[m].now)
    ensures Opening(cfg, run, events, m + 1, level, pos) == Redis.Some(m)
  {
    RunCounts(cfg, run, births, events, m, level, pos);
  }

  /** It stands until it has expired or seen ten reads. */
  lemma {:induction false} WindowStands(cfg: Config, run: seq<World>, events: seq<Event>, m: nat, n: nat,
                                        level: string, pos: int)
    requires m < n <= |events| < |run| && Opening(cfg, run, events, m + 1, level, pos) == Redis.Some(m)
    requires NoReset(events, m, n, level, pos) && forall k | m < k < n :: StillOpen(cfg, run, m, k)
    requires Count(run, events, m, n, level, pos) < THRESHOLD
    ensures Opening(cfg, run, events, n, level, pos) == Redis.Some(m)
  {
    if n > m + 1 {
      CountGrows(run, events, m, n - 1, n, level, pos);
      WindowStands(cfg, run, events, m, n - 1, level, pos);
    }
  }

  /** So after a cold read the tenth within the counter's life caches, and none before; the project's README says 30. */
  lemma TenthReadCaches(cfg: Config, run: seq<World>, births: seq<Births>, events: seq<Event>, m: nat, i: nat,
                        level: string, pos: int)
    requires IsRun(cfg, run, births, events) && m < i < |events| && cfg.taskTtl > 0
    requires MissAt(run, events, m, level, pos) && !Redis.Live(run[m].store, ReadCounterKey(level, pos), run[m].now)
    requires MissAt(run, events, i, level, pos) && StillOpen(cfg, run, m, i) && NoReset(events, m, i, level, pos)
    requires Count(run, events, m, i, level, pos) < 10
    ensures CachesAt(cfg, run, events, i, level, pos) <==> Count(run, events, m, i + 1, level, pos) == 10
  {
    forall k | m < k < i
      ensures StillOpen(cfg, run, m, k)
    {
      TimePasses(cfg, run, births, events, k, i);
    }
    WindowOpens(cfg, run, births, events, m, level, pos);
    WindowStands(cfg, run, events, m, i, level, pos);
    CachesExactly(cfg, run, births, events, i, level, pos);
  }

  /** And no position is ever cached without ten database-answered reads of it within one life of a counter. */
  lemma NeverEarlier(cfg: Config, run: seq<World>, births: seq<Births>, events: seq<Event>, i: nat,
                     level: string, pos: int) returns (first: nat)
    requires IsRun(cfg, run, births, events) && i < |events| && cfg.taskTtl > 0
    requires CachesAt(cfg, run, events, i, level, pos)
    ensures first < i && run[i].now < run[first].now + cfg.countTtl
    ensures Count(run, events, first, i + 1, level, pos) == 10
  {
    CachesExactly(cfg, run, births, events, i, level, pos);
    first := Opening(cfg, run, events, i, level, pos).value;
  }

  /* ---- how long a cached answer lasts ---- */

  lemma HitKeepsCache(cfg: Config, w: World, e: Event, level: string, pos: int, ans: Answer, expires: int)
    requires CacheHolds(w.store, level, pos, ans, expires) && w.now < expires && e != Delete(level, pos)
    ensures CacheHolds(Next(cfg, w, e).store, level, pos, ans, expires)
  {
    if e.Read? && (e.level != level || e.pos != pos) {
      CachedElsewhere(cfg, w, e.level, e.pos, Query(w.rows, e.level, e.pos, e.limit, e.scan), level, pos);
    } else if e.Delete? {
      CacheKeyIsNoCounterKey(level, pos, KeyText(e.level, e.pos));
      if CacheKey(e.level, e.pos) == CacheKey(level, pos) {
        CacheKeyInjective(e.level, e.pos, level, pos);
      }
    }
  }

  /** While every step before j starts within the TTL. */
  lemma {:induction false} EntryStays(cfg: Config, run: seq<World>, births: seq<Births>, events: seq<Event>,
                                      i: nat, j: nat, level: string, pos: int, ans: Answer, expires: int)
    requires IsRun(cfg, run, births, events) && i < j < |run|
    requires CacheHolds(run[i + 1].store, level, pos, ans, expires)
    requires forall k | i < k < j :: events[k] != Delete(level, pos) && run[k].now < expires
    ensures CacheHolds(run[j].store, level, pos, ans, expires)
  {
    if j > i + 1 {
      var k := j - 1;
      EntryStays(cfg, run, births, events, i, k, level, pos, ans, expires);
      assert run[k + 1] == Next(cfg, run[k], events[k]);
      HitKeepsCache(cfg, run[k], events[k], level, pos, ans, expires);
    }
  }

  /** Once cached, an answer is served for one task TTL, whatever happens, unless its own position is deleted. */
  lemma CacheLasts(cfg: Config, run: seq<World>, births: seq<Births>, events: seq<Event>, i: nat, j: nat,
                   level: string, pos: int)
    requires IsRun(cfg, run, births, events) && i < j < |run|
    requires CachesAt(cfg, run, events, i, level, pos)
    requires forall k | i < k < j :: events[k] != Delete(level, pos)
    requires run[j].now < run[i].now + cfg.taskTtl
    ensures Redis.Get(run[j].store, CacheKey(level, pos), run[j].now)
            == Redis.Some(Query(run[i].rows, level, pos, events[i].limit, events[i].scan))
  {
    forall k | i < k < j
      ensures run[k].now < run[i].now + cfg.taskTtl
    {
      TimePasses(cfg, run, births, events, k, j);
    }
    EntryStays(cfg, run, births, events, i, j, level, pos,
               Query(run[i].rows, level, pos, events[i].limit, events[i].scan), run[i].now + cfg.taskTtl);
  }
}

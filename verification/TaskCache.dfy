/** learn-service's cache-aside task reads, and what may be served over every serialised run of its handlers. */
module TaskCache {
  import opened Slices
  import opened Tasks
  import opened CacheKeys
  import Redis

  /** The JSON list a read returns. */
  type Answer = Rows

  /** COUNT_TTL and TASK_TTL, both as seconds; a non-positive task TTL would mean no expiry to the client library. */
  datatype Config = Config(countTtl: int, taskTtl: int)

  const THRESHOLD := 10

  datatype World = World(rows: Table, store: Redis.Store<Answer>, now: int)

  /* ---- the handlers as functions ---- */

  /** SELECT by level and, for a non-negative position, by position; `scan` is the unordered list of a whole level. */
  function Query(rows: Table, level: string, pos: int, limit: int, scan: Answer): Answer {
    var slot := Slot(level, pos);
    var all := if pos < 0 then scan else if slot in rows then [(slot, rows[slot])] else [];
    if limit > 0 && |all| > limit then all[..limit] else all
  }

  /** Count the read; the tenth within the counter's life caches the answer and drops the counter. */
  function Cached(cfg: Config, w: World, level: string, pos: int, ans: Answer): Redis.Store<Answer> {
    var hits := ReadCounterKey(level, pos);
    var counted := Redis.IncrAndExpire(w.store, hits, cfg.countTtl, w.now);
    match Redis.Incremented(w.store, hits, w.now)
    case None => counted
    case Some(count) =>
      if count < THRESHOLD then counted
      else counted[CacheKey(level, pos) := Redis.Entry(Redis.Payload(ans), w.now + cfg.taskTtl)] - {hits}
  }

  /** How a read ends: an error, a panic while building a key, or a list. */
  datatype Reply = EmptyLevel | Panic | Found(ans: Answer)

  function Served(w: World, level: string, pos: int, limit: int, scan: Answer): Reply {
    if level == "" then EmptyLevel
    else if !PrefixedFits(level, pos) then Panic
    else
      match Redis.Get(w.store, CacheKey(level, pos), w.now)
      case Some(ans) => Found(ans)
      case None => if Fits(level, pos) then Found(Query(w.rows, level, pos, limit, scan)) else Panic
  }

  /** This read is answered by the database, and so counted. */
  predicate Misses(w: World, level: string, pos: int) {
    level != "" && Fits(level, pos) && Redis.Get(w.store, CacheKey(level, pos), w.now).None?
  }

  function AfterRead(cfg: Config, w: World, level: string, pos: int, limit: int, scan: Answer): World {
    if Misses(w, level, pos) then w.(store := Cached(cfg, w, level, pos, Query(w.rows, level, pos, limit, scan)))
    else w
  }

  /** The row goes first, then the keys; either part may panic. */
  function AfterDelete(w: World, level: string, pos: int): World {
    if !KeyFits(level, pos) then w
    else
      World(w.rows - {Slot(level, pos)},
            if PrefixedFits(level, pos) then w.store - {CacheKey(level, pos), DeletedCounterKey(level, pos)}
            else w.store,
            w.now)
  }

  /* ---- the handlers as the service runs them ---- */

  class LearnServer {
    const db: TaskDB
    const rdb: Redis.Client<Answer>
    const cfg: Config

    constructor (db: TaskDB, rdb: Redis.Client<Answer>, cfg: Config)
      ensures this.db == db && this.rdb == rdb && this.cfg == cfg
    {
      this.db, this.rdb, this.cfg := db, rdb, cfg;
    }

    function State(): World
      reads db, rdb
    {
      World(db.rows, rdb.store, rdb.now)
    }

    /** The parameter names are the callee's: the caller passes its buffers the other way round. */
    method CacheTasks(bufCount: Slice, bufCache: Slice, value: Answer, ghost level: string, ghost pos: int)
      returns (ok: bool)
      requires bufCount.Valid() && bufCache.Valid() && bufCount.data != bufCache.data && bufCount != bufCache
      requires bufCount.Contents() == CacheKey(level, pos) && bufCache.Contents() == KeyText(level, pos)
      requires bufCount.data.Length == bufCache.data.Length == POOL_CAPACITY
      modifies rdb`store, bufCount`len, bufCache`len, bufCount.data, bufCache.data
      ensures ok == Fits(level, pos)
      ensures rdb.store == if ok then Cached(cfg, old(State()), level, pos, value) else old(rdb.store)
      ensures var hits, key := ReadCounterKey(level, pos), CacheKey(level, pos);
              var count := Redis.Incremented(old(rdb.store), hits, rdb.now);
              if ok && count.Some? && count.value >= 10 then
                && key in rdb.store && rdb.store[key] == Redis.Entry(Redis.Payload(value), rdb.now + cfg.taskTtl)
                && hits !in rdb.store
              else
                && (key in rdb.store <==> key in old(rdb.store))
                && (key in rdb.store ==> rdb.store[key] == old(rdb.store)[key])
    {
      ok := BuildKey(COUNT_PREFIX, bufCount);
      if !ok {
        return;
      }
      var countKey := bufCount.data[..bufCount.len];
      ok := BuildKey(CACHE_PREFIX, bufCache);
      var cacheKey := bufCache.data[..bufCache.len];
      assert countKey == ReadCounterKey(level, pos) && cacheKey == CacheKey(level, pos);
      CacheKeyIsNoCounterKey(level, pos, CacheKey(level, pos));
      var count := rdb.RunIncrAndExpire(countKey, cfg.countTtl);
      if count.None? {
        return;
      }
      if count.value < THRESHOLD {
        return;
      }
      rdb.Set(cacheKey, value, cfg.taskTtl);
      rdb.Del(countKey);
    }

    method GetTasks(level: string, pos: int, limit: int, scan: Answer) returns (reply: Reply)
      modifies rdb`store
      ensures reply == Served(old(State()), level, pos, limit, scan)
      ensures State() == AfterRead(cfg, old(State()), level, pos, limit, scan)
    {
      if level == "" {
        return EmptyLevel;
      }
      var ok, cacheKey := KeyBuffer(level, pos);
      if !ok {
        return Panic;
      }
      var ok', countKey := KeyBuffer(level, pos);

      ok := BuildKey(CACHE_PREFIX, cacheKey);
      if !ok {
        return Panic;
      }
      var lookup := cacheKey.data[..cacheKey.len];
      assert lookup == CacheKey(level, pos);
      var tasks := rdb.GetValue(lookup);
      if tasks.Some? {
        return Found(tasks.value);
      }
      var ans := Query(db.rows, level, pos, limit, scan);
      ok := CacheTasks(cacheKey, countKey, ans, level, pos);
      return if ok then Found(ans) else Panic;
    }

    method DelTask(level: string, pos: int)
      modifies db, rdb`store
      ensures State() == AfterDelete(old(State()), level, pos)
    {
      var ok, cacheKey := KeyBuffer(level, pos);
      if !ok {
        return;
      }
      var ok', countKey := KeyBuffer(level, pos);
      db.DelTask(level, pos);
      ok := BuildKey(COUNT_PREFIX, countKey);
      if !ok {
        return;
      }
      ok := BuildKey(CACHE_PREFIX, cacheKey);
      var cacheText, countText := cacheKey.data[..cacheKey.len], countKey.data[..countKey.len];
      assert cacheText == CacheKey(level, pos) && countText == DeletedCounterKey(level, pos);
      rdb.Del(cacheText);
      rdb.Del(countText);
      assert rdb.store == old(rdb.store) - {cacheText, countText};
    }
  }

  /* ---- runs ---- */

  datatype Event =
    | New(tasks: seq<Task>)                                       // a whole bulk insert
    | Read(level: string, pos: int, limit: int, scan: Answer)
    | Delete(level: string, pos: int)
    | Tick(dt: nat)                                               // time passes, entries expire

  function InsertedRows(rows: Table, tasks: seq<Task>): Table {
    if tasks == [] then rows else BulkInserted(rows, tasks)
  }

  function Next(cfg: Config, w: World, e: Event): World {
    match e
    case New(tasks) => w.(rows := InsertedRows(w.rows, tasks))
    case Read(level, pos, limit, scan) => AfterRead(cfg, w, level, pos, limit, scan)
    case Delete(level, pos) => AfterDelete(w, level, pos)
    case Tick(dt) => w.(now := w.now + dt)
  }

  /** When each row of the table was inserted; a history, not part of the service. */
  type Births = map<Slot, int>

  function NextBirths(w: World, births: Births, e: Event): Births {
    match e
    case New(tasks) => map slot | slot in InsertedRows(w.rows, tasks) :: if slot in births then births[slot] else w.now
    case Delete(level, pos) => if KeyFits(level, pos) then births - {Slot(level, pos)} else births
    case Read(_, _, _, _) => births
    case Tick(_) => births
  }

  /** A cached answer is the row now in the table, or an empty list older than the row; and its key fits. */
  ghost predicate Agrees(cfg: Config, w: World, births: Births, level: string, pos: int) {
    var key, slot := CacheKey(level, pos), Slot(level, pos);
    Redis.Get(w.store, key, w.now).Some? ==>
      var ans, written := Redis.Get(w.store, key, w.now).value, w.store[key].expires - cfg.taskTtl;
      && written <= w.now && Fits(level, pos)
      && (ans == Query(w.rows, level, pos, 0, [])
          || (ans == [] && slot in w.rows && slot in births && written <= births[slot]))
  }

  ghost predicate Sound(cfg: Config, w: World, births: Births) {
    && births.Keys == w.rows.Keys
    && forall level, pos | pos >= 0 :: Agrees(cfg, w, births, level, pos)
  }

  /** The limit a client sends never matters for a single position. */
  lemma LimitIrrelevant(rows: Table, level: string, pos: int, limit: int, scan: Answer)
    requires pos >= 0
    ensures Query(rows, level, pos, limit, scan) == Query(rows, level, pos, 0, [])
  {
  }

  /** A whole level, as far as the limit goes; a limit that is not positive is none. */
  lemma LevelLimited(rows: Table, level: string, pos: int, limit: int, scan: Answer)
    requires pos < 0
    ensures Query(rows, level, pos, limit, scan) <= scan
    ensures |Query(rows, level, pos, limit, scan)| == if 0 < limit < |scan| then limit else |scan|
  {
  }

  /** After a deletion that fits, the position reads as empty. */
  lemma DeletedNotServed(cfg: Config, w: World, level: string, pos: int, limit: int, scan: Answer)
    requires pos >= 0 && level != "" && Fits(level, pos)
    ensures var w' := Next(cfg, w, Delete(level, pos));
            Slot(level, pos) !in w'.rows && Served(w', level, pos, limit, scan) == Found([])
  {
  }

  lemma {:induction false} PutKeeps(rows: Table, values: Rows, slot: Slot)
    requires Insertable(rows, values) && slot in rows
    ensures slot in Put(rows, values) && Put(rows, values)[slot] == rows[slot]
  {
    if values != [] {
      PutKeeps(rows, values[..|values| - 1], slot);
    }
  }

  lemma NewKeepsSound(cfg: Config, w: World, births: Births, tasks: seq<Task>)
    requires Sound(cfg, w, births)
    ensures Sound(cfg, Next(cfg, w, New(tasks)), NextBirths(w, births, New(tasks)))
  {
    var w', births' := Next(cfg, w, New(tasks)), NextBirths(w, births, New(tasks));
    forall slot | slot in w.rows
      ensures slot in w'.rows && w'.rows[slot] == w.rows[slot] && births'[slot] == births[slot]
    {
      if tasks != [] {
        var values := NumberedRows(tasks, MaxPosition(w.rows, tasks[0].level));
        if Insertable(w.rows, values) {
          PutKeeps(w.rows, values, slot);
        }
      }
    }
    assert births'.Keys == w'.rows.Keys;
    forall level, pos | pos >= 0
      ensures Agrees(cfg, w', births', level, pos)
    {
      assert Agrees(cfg, w, births, level, pos);
    }
  }

  lemma CachedElsewhere(cfg: Config, w: World, level: string, pos: int, ans: Answer, l: string, p: int)
    requires l != level || p != pos
    ensures var store', key := Cached(cfg, w, level, pos, ans), CacheKey(l, p);
            (key in store' <==> key in w.store) && (key in w.store ==> store'[key] == w.store[key])
  {
    CacheKeyIsNoCounterKey(l, p, CacheKey(level, pos));
    if CacheKey(l, p) == CacheKey(level, pos) {
      CacheKeyInjective(l, p, level, pos);
    }
  }

  lemma CachedHere(cfg: Config, w: World, level: string, pos: int, ans: Answer)
    ensures var store', key := Cached(cfg, w, level, pos, ans), CacheKey(level, pos);
            || ((key in store' <==> key in w.store) && (key in w.store ==> store'[key] == w.store[key]))
            || (key in store' && store'[key] == Redis.Entry(Redis.Payload(ans), w.now + cfg.taskTtl))
  {
    CacheKeyIsNoCounterKey(level, pos, CacheKey(level, pos));
  }

  lemma ReadKeepsSound(cfg: Config, w: World, births: Births, e: Event)
    requires Sound(cfg, w, births) && e.Read?
    ensures Sound(cfg, Next(cfg, w, e), births)
  {
    var w' := Next(cfg, w, e);
    forall level, pos | pos >= 0
      ensures Agrees(cfg, w', births, level, pos)
    {
      assert Agrees(cfg, w, births, level, pos);
      var ans := Query(w.rows, e.level, e.pos, e.limit, e.scan);
      if level == e.level && pos == e.pos {
        LimitIrrelevant(w.rows, level, pos, e.limit, e.scan);
        CachedHere(cfg, w, level, pos, ans);
      } else {
        CachedElsewhere(cfg, w, e.level, e.pos, ans, level, pos);
      }
    }
  }

  lemma DeleteKeepsSound(cfg: Config, w: World, births: Births, e: Event)
    requires Sound(cfg, w, births) && e.Delete?
    ensures Sound(cfg, Next(cfg, w, e), NextBirths(w, births, e))
  {
    var w', births' := Next(cfg, w, e), NextBirths(w, births, e);
    forall level, pos | pos >= 0
      ensures Agrees(cfg, w', births', level, pos)
    {
      assert Agrees(cfg, w, births, level, pos);
      if level != e.level || pos != e.pos {
        if CacheKey(level, pos) == CacheKey(e.level, e.pos) {
          CacheKeyInjective(level, pos, e.level, e.pos);
        }
        CacheKeyIsNoCounterKey(level, pos, KeyText(e.level, e.pos));
      }
    }
  }

  lemma StepKeepsSound(cfg: Config, w: World, births: Births, e: Event)
    requires Sound(cfg, w, births)
    ensures Sound(cfg, Next(cfg, w, e), NextBirths(w, births, e))
  {
    match e {
      case New(tasks) => NewKeepsSound(cfg, w, births, tasks);
      case Read(_, _, _, _) => ReadKeepsSound(cfg, w, births, e);
      case Delete(_, _) => DeleteKeepsSound(cfg, w, births, e);
      case Tick(dt) =>
        forall level, pos | pos >= 0
          ensures Agrees(cfg, Next(cfg, w, e), births, level, pos)
        {
          assert Agrees(cfg, w, births, level, pos);
        }
    }
  }

  /** A run from an empty Redis, over any table, with the birth times beside it. */
  ghost predicate IsRun(cfg: Config, run: seq<World>, births: seq<Births>, events: seq<Event>) {
    && |run| == |births| == |events| + 1
    && run[0].store == map[] && births[0].Keys == run[0].rows.Keys
    && forall i | 0 <= i < |events| ::
         run[i + 1] == Next(cfg, run[i], events[i]) && births[i + 1] == NextBirths(run[i], births[i], events[i])
  }

  lemma {:induction false} RunIsSound(cfg: Config, run: seq<World>, births: seq<Births>, events: seq<Event>, i: nat)
    requires IsRun(cfg, run, births, events) && i < |run|
    ensures Sound(cfg, run[i], births[i])
  {
    if i > 0 {
      RunIsSound(cfg, run, births, events, i - 1);
      assert run[i - 1 + 1] == Next(cfg, run[i - 1], events[i - 1])
             && births[i - 1 + 1] == NextBirths(run[i - 1], births[i - 1], events[i - 1]);
      StepKeepsSound(cfg, run[i - 1], births[i - 1], events[i - 1]);
    }
  }

  /** A served task is the row now in the table; only an empty answer can be out of date, and only about a young row. */
  lemma ServedIsCurrent(cfg: Config, run: seq<World>, births: seq<Births>, events: seq<Event>, i: nat)
    requires IsRun(cfg, run, births, events) && i < |events|
    requires events[i].Read? && events[i].pos >= 0
    ensures var e, w, slot := events[i], run[i], Slot(events[i].level, events[i].pos);
            match Served(w, e.level, e.pos, e.limit, e.scan)
            case EmptyLevel => e.level == ""
            case Panic => e.level != "" && !Fits(e.level, e.pos)
            case Found(ans) =>
              || ans == (if slot in w.rows then [(slot, w.rows[slot])] else [])
              || (ans == [] && slot in w.rows && slot in births[i] && w.now < births[i][slot] + cfg.taskTtl)
  {
    RunIsSound(cfg, run, births, events, i);
    var e := events[i];
    assert Agrees(cfg, run[i], births[i], e.level, e.pos);
    LimitIrrelevant(run[i].rows, e.level, e.pos, e.limit, e.scan);
  }

  /** Exactly then: a read is out of date if and only if a live cached empty list stands for a row of the table. */
  lemma StaleExactly(cfg: Config, run: seq<World>, births: seq<Births>, events: seq<Event>, i: nat)
    requires IsRun(cfg, run, births, events) && i < |events|
    requires events[i].Read? && events[i].pos >= 0 && events[i].level != "" && Fits(events[i].level, events[i].pos)
    ensures var e, w := events[i], run[i];
            Served(w, e.level, e.pos, e.limit, e.scan) == Found(Query(w.rows, e.level, e.pos, e.limit, e.scan))
            <==> !(Redis.Get(w.store, CacheKey(e.level, e.pos), w.now) == Redis.Some([])
                   && Slot(e.level, e.pos) in w.rows)
  {
    RunIsSound(cfg, run, births, events, i);
    var e := events[i];
    assert Agrees(cfg, run[i], births[i], e.level, e.pos);
    LimitIrrelevant(run[i].rows, e.level, e.pos, e.limit, e.scan);
  }

  /* ---- an example: ten reads, then an insert ---- */

  function Reads(cfg: Config, w: World, level: string, pos: int, n: nat): World {
    if n == 0 then w else AfterRead(cfg, Reads(cfg, w, level, pos, n - 1), level, pos, 1, [])
  }

  /** After n reads at one moment from an empty Redis. */
  ghost predicate ReadsDone(w: World, w': World, level: string, pos: int, n: nat) {
    var hits, key := ReadCounterKey(level, pos), CacheKey(level, pos);
    && w'.rows == w.rows && w'.now == w.now
    && (n == 0 ==> w'.store == map[])
    && (0 < n < THRESHOLD ==> key !in w'.store && Redis.Live(w'.store, hits, w.now)
                              && w'.store[hits].value == Redis.Counter(n))
    && (n == THRESHOLD ==> Redis.Get(w'.store, key, w.now) == Redis.Some(Query(w.rows, level, pos, 1, [])))
  }

  lemma OneMoreRead(cfg: Config, w: World, w': World, level: string, pos: int, n: nat)
    requires cfg.countTtl > 0 && cfg.taskTtl > 0 && n < THRESHOLD && level != "" && Fits(level, pos)
    requires ReadsDone(w, w', level, pos, n)
    ensures ReadsDone(w, AfterRead(cfg, w', level, pos, 1, []), level, pos, n + 1)
  {
    CacheKeyIsNoCounterKey(level, pos, CacheKey(level, pos));
  }

  lemma {:induction false} ReadsCount(cfg: Config, w: World, level: string, pos: int, n: nat)
    requires cfg.countTtl > 0 && cfg.taskTtl > 0 && n <= THRESHOLD && level != "" && Fits(level, pos)
    requires w.store == map[]
    ensures ReadsDone(w, Reads(cfg, w, level, pos, n), level, pos, n)
  {
    if n > 0 {
      ReadsCount(cfg, w, level, pos, n - 1);
      OneMoreRead(cfg, w, Reads(cfg, w, level, pos, n - 1), level, pos, n - 1);
    }
  }

  /** Ten reads of a free position, then an insert there, then a read: the new task is not served yet. */
  lemma NewTaskHidden(cfg: Config, w: World, tasks: seq<Task>, level: string, pos: int)
    requires pos >= 0 && cfg.countTtl > 0 && cfg.taskTtl > 0 && level != "" && Fits(level, pos)
    requires w.store == map[] && Slot(level, pos) !in w.rows && Slot(level, pos) in InsertedRows(w.rows, tasks)
    ensures var w' := Next(cfg, Reads(cfg, w, level, pos, 10), New(tasks));
            Slot(level, pos) in w'.rows && Served(w', level, pos, 1, []) == Found([])
  {
    ReadsCount(cfg, w, level, pos, THRESHOLD);
  }
}

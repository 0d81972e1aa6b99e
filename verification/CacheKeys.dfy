/** How learn-service builds its Redis keys inside pooled buffers, and why different keys never meet. */
module CacheKeys {
  import opened Decimal
  import opened Slices

  const POOL_CAPACITY := 64

  const CACHE_PREFIX := "tasks:cache:"
  const COUNT_PREFIX := "tasks:count:"

  function KeyText(level: string, pos: int): string {
    level + ":" + Render(pos)
  }

  function CacheKey(level: string, pos: int): string {
    CACHE_PREFIX + KeyText(level, pos)
  }

  /** The counter a read increments: the read has already put the cache prefix into that buffer. */
  function ReadCounterKey(level: string, pos: int): string {
    COUNT_PREFIX + CacheKey(level, pos)
  }

  /** The counter a deletion removes, which is a different one. */
  function DeletedCounterKey(level: string, pos: int): string {
    COUNT_PREFIX + KeyText(level, pos)
  }

  /** Prefix a key in place. When the capacity does not suffice, reslicing panics before anything is written. */
  method BuildKey(prefix: string, key: Slice) returns (ok: bool)
    requires key.Valid()
    modifies key`len, key.data
    ensures key.Valid() && ok == (|prefix| + old(key.len) <= key.data.Length)
    ensures key.Contents() == (if ok then prefix else "") + old(key.Contents())
  {
    var origLen := key.len;
    var prefLen := |prefix|;
    if prefLen + origLen > key.data.Length {
      return false;
    }
    key.len := prefLen + origLen;
    // copy moves overlapping regions as a whole
    forall i | 0 <= i < origLen {
      key.data[prefLen + i] := key.data[i];
    }
    assert key.data[prefLen..prefLen + origLen] == old(key.Contents());
    forall i | 0 <= i < prefLen {
      key.data[i] := prefix[i];
    }
    assert forall i | 0 <= i < prefLen :: key.Contents()[i] == prefix[i];
    assert forall i | 0 <= i < origLen :: key.Contents()[prefLen + i] == old(key.Contents())[i];
    assert key.Contents() == prefix + old(key.Contents());
    return true;
  }

  /** A pooled buffer, emptied and then given the request's level and position. */
  method KeyBuffer(level: string, pos: int) returns (ok: bool, buf: Slice)
    ensures fresh(buf) && fresh(buf.data) && buf.data.Length == POOL_CAPACITY && buf.Valid()
    ensures ok == KeyFits(level, pos) && (ok ==> buf.Contents() == KeyText(level, pos))
  {
    var backing := new char[POOL_CAPACITY];
    buf := new Slice.Over(backing);
    ok := BuildKey(KeyText(level, pos), buf);
  }

  /* ---- what fits into a pooled buffer ---- */

  predicate KeyFits(level: string, pos: int) {
    |KeyText(level, pos)| <= POOL_CAPACITY
  }

  /** One prefix, as a lookup and a deletion need it. */
  predicate PrefixedFits(level: string, pos: int) {
    |CacheKey(level, pos)| <= POOL_CAPACITY && |DeletedCounterKey(level, pos)| <= POOL_CAPACITY
  }

  /** Both prefixes, as counting a read needs them. */
  predicate Fits(level: string, pos: int) {
    |ReadCounterKey(level, pos)| <= POOL_CAPACITY
  }

  /** The sizes of level and position at which each request starts to panic. */
  lemma FitsExactly(level: string, pos: int)
    ensures var size := |level| + |Render(pos)|;
            && (KeyFits(level, pos) <==> size <= 63)
            && (PrefixedFits(level, pos) <==> size <= 51)
            && (Fits(level, pos) <==> size <= 39)
  {
  }

  lemma LaterColon(a: string, x: string, b: string, y: string)
    requires a + ":" + x == b + ":" + y && |a| < |b|
    ensures ':' in x
  {
    var k := a + ":" + x;
    assert k[|b|] == ':' && k[|b|] == x[|b| - |a| - 1];
  }

  /** The last colon separates. */
  lemma SplitAtLastColon(a: string, x: string, b: string, y: string)
    requires a + ":" + x == b + ":" + y && ':' !in x && ':' !in y
    ensures a == b && x == y
  {
    if |a| < |b| {
      LaterColon(a, x, b, y);
    } else if |b| < |a| {
      LaterColon(b, y, a, x);
    } else {
      var k := a + ":" + x;
      assert k[..|a|] == a && k[..|b|] == b;
      assert k[|a| + 1..] == x && k[|b| + 1..] == y;
    }
  }

  /** Level and position can be read back from a key. */
  lemma KeyTextInjective(l1: string, p1: int, l2: string, p2: int)
    requires KeyText(l1, p1) == KeyText(l2, p2)
    ensures l1 == l2 && p1 == p2
  {
    RenderHasNoColon(p1);
    RenderHasNoColon(p2);
    SplitAtLastColon(l1, Render(p1), l2, Render(p2));
    RenderInjective(p1, p2);
  }

  lemma CacheKeyInjective(l1: string, p1: int, l2: string, p2: int)
    requires CacheKey(l1, p1) == CacheKey(l2, p2)
    ensures l1 == l2 && p1 == p2
  {
    var n := |CACHE_PREFIX|;
    assert CacheKey(l1, p1)[n..] == KeyText(l1, p1) && CacheKey(l2, p2)[n..] == KeyText(l2, p2);
    KeyTextInjective(l1, p1, l2, p2);
  }

  /** A cache key is never a counter key, whatever the levels are called. */
  lemma CacheKeyIsNoCounterKey(level: string, pos: int, rest: string)
    ensures CacheKey(level, pos) != COUNT_PREFIX + rest
  {
    assert CacheKey(level, pos)[7] == 'a';
    assert (COUNT_PREFIX + rest)[7] == 'o';
  }

  /** A deletion removes a read counter exactly when its level is that read's level with the cache prefix. */
  lemma DeletedIsReadCounter(l: string, p: int, level: string, pos: int)
    ensures DeletedCounterKey(l, p) == ReadCounterKey(level, pos) <==> l == CACHE_PREFIX + level && p == pos
  {
    var n := |COUNT_PREFIX|;
    assert DeletedCounterKey(l, p)[n..] == KeyText(l, p);
    assert CacheKey(level, pos) == KeyText(CACHE_PREFIX + level, pos);
    assert ReadCounterKey(level, pos)[n..] == KeyText(CACHE_PREFIX + level, pos);
    if KeyText(l, p) == KeyText(CACHE_PREFIX + level, pos) {
      KeyTextInjective(l, p, CACHE_PREFIX + level, pos);
    }
  }
}

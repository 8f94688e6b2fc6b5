/**
 * The least-recently-used cache in front of STML layout. The layout itself and the cost of keeping a
 * result are parameters: the cache behaves the same for every layout.
 */
module LayoutCache {
  const CACHE_ITEMS: nat := 128
  const CACHE_BYTES: nat := 1024 * 1024

  datatype Key = Key(width: nat, markup: string)

  datatype Entry<R> = Entry(key: Key, result: R, cost: nat)

  /** The layout being cached and what its results cost to keep, in bytes. */
  datatype Renderer<!R> = Renderer(layout: Key -> R, cost: (Key, R) -> nat)
  {
    function Fresh(key: Key): Entry<R> { Entry(key, layout(key), cost(key, layout(key))) }
  }

  function Keys<R>(entries: seq<Entry<R>>): (keys: seq<Key>)
    ensures |keys| == |entries|
  {
    seq(|entries|, i requires 0 <= i < |entries| => entries[i].key)
  }

  function Bytes<R>(entries: seq<Entry<R>>): nat {
    if entries == [] then 0 else entries[0].cost + Bytes(entries[1..])
  }

  function Position<R>(entries: seq<Entry<R>>, key: Key): (i: nat)
    ensures i <= |entries|
    ensures i < |entries| ==> entries[i].key == key
    ensures forall j :: 0 <= j < i ==> entries[j].key != key
  {
    if entries == [] || entries[0].key == key then 0 else 1 + Position(entries[1..], key)
  }

  predicate Crowded<R>(entries: seq<Entry<R>>, cost: nat) {
    |entries| >= CACHE_ITEMS || Bytes(entries) + cost > CACHE_BYTES
  }

  /** Drops the oldest entries until there is room for `cost` more bytes. */
  function Evict<R>(entries: seq<Entry<R>>, cost: nat): seq<Entry<R>> {
    if entries != [] && Crowded(entries, cost) then Evict(entries[1..], cost) else entries
  }

  function Without<R>(entries: seq<Entry<R>>, i: nat): seq<Entry<R>>
    requires i < |entries|
  {
    entries[..i] + entries[i + 1..]
  }

  function Lookup<R>(renderer: Renderer<R>, entries: seq<Entry<R>>, key: Key): seq<Entry<R>> {
    var i := Position(entries, key);
    if i < |entries| then Without(entries, i) + [entries[i]]
    else Evict(entries, renderer.Fresh(key).cost) + [renderer.Fresh(key)]
  }

  /** The cache after a sequence of calls. */
  function Run<R>(renderer: Renderer<R>, calls: seq<Key>): seq<Entry<R>> {
    if calls == [] then [] else Lookup(renderer, Run(renderer, calls[..|calls| - 1]), calls[|calls| - 1])
  }

  /** The distinct keys of a sequence of calls, in the order they were last used. */
  function Recency(calls: seq<Key>): seq<Key> {
    if calls == [] then [] else
      var last := calls[|calls| - 1];
      Removed(Recency(calls[..|calls| - 1]), last) + [last]
  }

  function Removed(keys: seq<Key>, key: Key): seq<Key> {
    if keys == [] then []
    else (if keys[0] == key then [] else [keys[0]]) + Removed(keys[1..], key)
  }

  predicate Distinct(keys: seq<Key>) {
    forall i, j :: 0 <= i < j < |keys| ==> keys[i] != keys[j]
  }

  /** What every reachable cache is: true results, no key twice, within both limits. */
  predicate Sound<R(==)>(renderer: Renderer<R>, entries: seq<Entry<R>>) {
    && (forall i :: 0 <= i < |entries| ==> entries[i] == renderer.Fresh(entries[i].key))
    && Distinct(Keys(entries))
    && |entries| <= CACHE_ITEMS
    && (Bytes(entries) <= CACHE_BYTES || |entries| == 1)
  }

  predicate SuffixOf(keys: seq<Key>, all: seq<Key>) {
    |keys| <= |all| && keys == all[|all| - |keys|..]
  }

  class Cache<R(!new)> {
    const renderer: Renderer<R>
    var entries: seq<Entry<R>>
    var bytes: nat

    ghost predicate Valid() reads this { Sound(renderer, entries) && bytes == Bytes(entries) }

    constructor (renderer: Renderer<R>)
      ensures Valid() && entries == [] && this.renderer == renderer
    {
      this.renderer := renderer;
      entries := [];
      bytes := 0;
    }

    /** Returns what the layout would, and leaves the cache in its least-recently-used order. */
    method LayoutCached(width: nat, markup: string) returns (result: R)
      requires Valid()
      modifies this
      ensures Valid()
      ensures result == renderer.layout(Key(width, markup))
      ensures entries == Lookup(renderer, old(entries), Key(width, markup))
    {
      var key := Key(width, markup);
      ghost var was := entries;
      LookupKeepsSound(renderer, entries, key);
      var index: nat := 0;
      while index < |entries| && entries[index].key != key
        invariant index <= |entries|
        invariant Position(entries, key) == index + Position(entries[index..], key)
        invariant entries == was && bytes == Bytes(was)
      {
        assert entries[index..][1..] == entries[index + 1..];
        index := index + 1;
      }
      if index < |entries| {
        var entry := entries[index];
        result := entry.result;
        LookupHitBytes(entries, index);
        entries := entries[..index] + entries[index + 1..] + [entry];
        return;
      }
      result := renderer.layout(key);
      var cost := renderer.cost(key, result);
      while entries != [] && (|entries| >= CACHE_ITEMS || bytes + cost > CACHE_BYTES)
        invariant bytes == Bytes(entries)
        invariant Evict(entries, cost) == Evict(was, cost)
        decreases |entries|
      {
        bytes := bytes - entries[0].cost;
        entries := entries[1..];
      }
      BytesConcat(entries, [Entry(key, result, cost)]);
      bytes := bytes + cost;
      entries := entries + [Entry(key, result, cost)];
    }
  }

  lemma {:induction false} BytesConcat<R>(a: seq<Entry<R>>, b: seq<Entry<R>>)
    ensures Bytes(a + b) == Bytes(a) + Bytes(b)
  {
    if a == [] {
      assert a + b == b;
    } else {
      assert (a + b)[1..] == a[1..] + b;
      BytesConcat(a[1..], b);
    }
  }

  lemma LookupHitBytes<R>(entries: seq<Entry<R>>, i: nat)
    requires i < |entries|
    ensures Bytes(Without(entries, i) + [entries[i]]) == Bytes(entries)
  {
    BytesConcat(Without(entries, i), [entries[i]]);
    BytesConcat(entries[..i], entries[i + 1..]);
    BytesConcat(entries[..i], entries[i..]);
    assert entries == entries[..i] + entries[i..];
    assert entries[i..][1..] == entries[i + 1..];
    assert [entries[i]][1..] == [];
  }

  /** Eviction drops the fewest oldest entries that make room. */
  lemma {:induction false} EvictIsMinimal<R>(entries: seq<Entry<R>>, cost: nat) returns (dropped: nat)
    ensures dropped <= |entries| && Evict(entries, cost) == entries[dropped..]
    ensures dropped == |entries| || !Crowded(entries[dropped..], cost)
    ensures forall n :: 0 <= n < dropped ==> Crowded(entries[n..], cost)
    decreases |entries|
  {
    hide Crowded;
    assert entries[0..] == entries;
    if entries != [] && Crowded(entries, cost) {
      var rest := EvictIsMinimal(entries[1..], cost);
      dropped := rest + 1;
      assert forall n :: 0 <= n <= |entries| - 1 ==> entries[1..][n..] == entries[n + 1..];
      forall n | 0 <= n < dropped ensures Crowded(entries[n..], cost) {
        if n > 0 { assert entries[n..] == entries[1..][n - 1..]; }
      }
    } else {
      dropped := 0;
    }
  }

  lemma LookupKeepsSound<R>(renderer: Renderer<R>, entries: seq<Entry<R>>, key: Key)
    requires Sound(renderer, entries)
    ensures Sound(renderer, Lookup(renderer, entries, key))
  {
    var i := Position(entries, key);
    if i < |entries| {
      HitKeepsSound(renderer, entries, i);
    } else {
      MissKeepsSound(renderer, entries, key);
    }
  }

  lemma HitKeepsSound<R>(renderer: Renderer<R>, entries: seq<Entry<R>>, i: nat)
    requires Sound(renderer, entries) && i < |entries|
    ensures Sound(renderer, Without(entries, i) + [entries[i]])
  {
    LookupHitBytes(entries, i);
    var moved := Without(entries, i) + [entries[i]];
    hide Bytes;
    forall a, b | 0 <= a < b < |moved| ensures Keys(moved)[a] != Keys(moved)[b] {
      var from := (n: int) => if n < i then n else if n < |entries| - 1 then n + 1 else i;
      assert moved[a] == entries[from(a)] && moved[b] == entries[from(b)];
      assert Keys(entries)[from(a)] != Keys(entries)[from(b)];
    }
  }

  lemma MissKeepsSound<R>(renderer: Renderer<R>, entries: seq<Entry<R>>, key: Key)
    requires Sound(renderer, entries) && Position(entries, key) == |entries|
    ensures Sound(renderer, Evict(entries, renderer.Fresh(key).cost) + [renderer.Fresh(key)])
  {
    var entry := renderer.Fresh(key);
    var n := EvictIsMinimal(entries, entry.cost);
    var kept := entries[n..];
    var next := kept + [entry];
    BytesConcat(kept, [entry]);
    assert Bytes([entry]) == entry.cost by { assert [entry][1..] == []; }
    assert forall a :: 0 <= a < |kept| ==> Keys(entries)[n + a] == kept[a].key;
  }

  // ---- Least recently used ----------------------------------------------------------------

  lemma {:induction false} RemovedIsSame(keys: seq<Key>, key: Key)
    requires key !in keys
    ensures Removed(keys, key) == keys
  {
    if keys != [] { RemovedIsSame(keys[1..], key); }
  }

  lemma {:induction false} RemovedConcat(a: seq<Key>, b: seq<Key>, key: Key)
    ensures Removed(a + b, key) == Removed(a, key) + Removed(b, key)
    ensures key !in Removed(a, key)
  {
    if a == [] {
      assert a + b == b;
    } else {
      assert (a + b)[1..] == a[1..] + b;
      RemovedConcat(a[1..], b, key);
    }
  }

  lemma {:induction false} RemovedAt(keys: seq<Key>, i: nat)
    requires i < |keys| && Distinct(keys)
    ensures Removed(keys, keys[i]) == keys[..i] + keys[i + 1..]
  {
    if i == 0 {
      RemovedIsSame(keys[1..], keys[0]);
    } else {
      RemovedAt(keys[1..], i - 1);
      assert keys[..i] == [keys[0]] + keys[1..][..i - 1];
      assert keys[1..][i..] == keys[i + 1..];
    }
  }

  lemma KeysOfHit<R>(entries: seq<Entry<R>>, i: nat)
    requires i < |entries| && Distinct(Keys(entries))
    ensures Keys(Without(entries, i) + [entries[i]]) == Removed(Keys(entries), entries[i].key) + [entries[i].key]
  {
    hide Removed, Distinct;
    RemovedAt(Keys(entries), i);
    assert Keys(Without(entries, i) + [entries[i]]) == Keys(entries)[..i] + Keys(entries)[i + 1..] + [entries[i].key];
  }

  /** Moving a key of a suffix to the end keeps it a suffix of the recency order. */
  lemma SuffixHit(keys: seq<Key>, all: seq<Key>, key: Key)
    requires SuffixOf(keys, all) && key in keys && Distinct(all)
    ensures SuffixOf(Removed(keys, key) + [key], Removed(all, key) + [key])
  {
    var front := all[..|all| - |keys|];
    assert all == front + keys;
    RemovedConcat(front, keys, key);
  }

  lemma SuffixMiss(keys: seq<Key>, n: nat, all: seq<Key>, key: Key)
    requires SuffixOf(keys, all) && key !in keys && n <= |keys|
    ensures SuffixOf(keys[n..] + [key], Removed(all, key) + [key])
  {
    hide Removed;
    var front := all[..|all| - |keys|] + keys[..n];
    SplitAll(keys, n, all);
    RemovedConcat(front, keys[n..], key);
    RemovedIsSame(keys[n..], key);
    Suffixed(Removed(front, key), keys[n..], [key]);
  }

  lemma SplitAll(keys: seq<Key>, n: nat, all: seq<Key>)
    requires SuffixOf(keys, all) && n <= |keys|
    ensures all == (all[..|all| - |keys|] + keys[..n]) + keys[n..]
  {
  }

  lemma Suffixed(front: seq<Key>, keys: seq<Key>, last: seq<Key>)
    ensures SuffixOf(keys + last, (front + keys) + last)
  {
  }

  lemma {:induction false} RemovedDistinct(keys: seq<Key>, key: Key)
    requires Distinct(keys)
    ensures Distinct(Removed(keys, key) + [key])
    ensures forall k :: k in Removed(keys, key) ==> k in keys && k != key
  {
    if keys != [] {
      RemovedDistinct(keys[1..], key);
      var rest := Removed(keys[1..], key);
      assert forall j :: 0 <= j < |rest| ==> rest[j] in rest;
      if keys[0] == key {
        assert Removed(keys, key) == rest;
      } else {
        assert Removed(keys, key) + [key] == [keys[0]] + (rest + [key]);
      }
    }
  }

  lemma {:induction false} RecencyIsDistinct(calls: seq<Key>)
    ensures Distinct(Recency(calls))
  {
    if calls != [] {
      RecencyIsDistinct(calls[..|calls| - 1]);
      RemovedDistinct(Recency(calls[..|calls| - 1]), calls[|calls| - 1]);
    }
  }

  /**
   * After any calls the cache holds true results, no key twice, within its limits, and its keys are
   * exactly the most recently used ones, oldest first.
   */
  lemma {:induction false} RunIsLru<R>(renderer: Renderer<R>, calls: seq<Key>)
    ensures Sound(renderer, Run(renderer, calls))
    ensures SuffixOf(Keys(Run(renderer, calls)), Recency(calls))
  {
    if calls == [] {
    } else {
      var key, before := calls[|calls| - 1], Run(renderer, calls[..|calls| - 1]);
      RunIsLru(renderer, calls[..|calls| - 1]);
      LookupKeepsSound(renderer, before, key);
      RecencyIsDistinct(calls[..|calls| - 1]);
      LookupIsLru(renderer, before, key, Recency(calls[..|calls| - 1]));
    }
  }

  lemma LookupIsLru<R>(renderer: Renderer<R>, entries: seq<Entry<R>>, key: Key, all: seq<Key>)
    requires Sound(renderer, entries) && Distinct(all) && SuffixOf(Keys(entries), all)
    ensures SuffixOf(Keys(Lookup(renderer, entries, key)), Removed(all, key) + [key])
  {
    hide Crowded, Bytes, Removed, Evict, Distinct;
    var i := Position(entries, key);
    if i < |entries| {
      assert Keys(entries)[i] == key;
      KeysOfHit(entries, i);
      SuffixHit(Keys(entries), all, key);
    } else {
      var n := EvictIsMinimal(entries, renderer.Fresh(key).cost);
      SuffixMiss(Keys(entries), n, all, key);
      assert Keys(Lookup(renderer, entries, key)) == Keys(entries)[n..] + [key];
    }
  }

  /** The key just asked for is always the last to be evicted, and asking again changes nothing. */
  lemma AskedIsKept<R>(renderer: Renderer<R>, entries: seq<Entry<R>>, key: Key)
    requires Sound(renderer, entries)
    ensures var next := Lookup(renderer, entries, key);
      next != [] && next[|next| - 1] == renderer.Fresh(key) && Lookup(renderer, next, key) == next
  {
    hide Crowded, Bytes, Evict;
    LookupKeepsSound(renderer, entries, key);
    var next := Lookup(renderer, entries, key);
    var last := |next| - 1;
    assert Keys(next)[last] == key;
    forall j | 0 <= j < last ensures next[j].key != key { assert Keys(next)[j] != key; }
    assert next[last].key == key;
    assert Position(next, key) == last;
    assert Without(next, last) + [next[last]] == next;
  }
}

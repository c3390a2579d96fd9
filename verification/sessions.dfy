/** The session registry of wsproxy/handle.go: the `pool` map from session
    key to worker and the `max_connections` ceiling, taken one operation at
    a time (the program's mutex serialises the map updates). */
module Sessions {
  import opened Frames

  /** p_worker: the key, the frame format and the two endpoints. */
  datatype Worker = Worker(key: string, format: MessageType, ws: nat, sock: nat)

  datatype Registry = Registry(pool: map<string, Worker>, maxConnections: int)

  /** The ceiling before `main` calls setMaxConns. */
  const InitialMaxConnections: int := 65535

  /** The registry at program start: no sessions. */
  function Initial(): (r: Registry)
    ensures |r.pool| == 0 && r.maxConnections == InitialMaxConnections
  {
    Registry(map[], InitialMaxConnections)
  }

  /** setMaxConns(n): the ceiling becomes `n`, the pool is untouched. */
  function SetMaxConns(reg: Registry, n: int): (r: Registry)
    ensures r.maxConnections == n && r.pool == reg.pool
  {
    reg.(maxConnections := n)
  }

  /** The admission test of handleWs: `len(pool) >= max_connections`. A
      ceiling of zero or below (as a wrapped -max_conns gives) refuses every
      request, even on an empty pool. */
  predicate Full(reg: Registry)
    ensures reg.maxConnections <= 0 ==> Full(reg)
  {
    |reg.pool| >= reg.maxConnections
  }

  /** Every worker is stored under its own key. */
  ghost predicate KeysMatch(reg: Registry) {
    forall k :: k in reg.pool ==> reg.pool[k].key == k
  }

  lemma MapUpdateSize<K, V>(m: map<K, V>, k: K, v: V)
    ensures |m[k := v]| == if k in m then |m| else |m| + 1
  {
    var m' := m[k := v];
    if k in m {
      assert m'.Keys == m.Keys;
    } else {
      assert m'.Keys == m.Keys + {k};
    }
  }

  lemma MapRemoveSize<K, V>(m: map<K, V>, k: K)
    ensures |m - {k}| == if k in m then |m| - 1 else |m|
  {
    var m' := m - {k};
    if k in m {
      assert m'.Keys + {k} == m.Keys;
    } else {
      assert m'.Keys == m.Keys;
    }
  }

  /** `pool[client.key] = client`: the worker is stored under its key,
      replacing any earlier worker with the same key; no other entry
      changes. The pool grows by one only when the key was new. */
  function Insert(reg: Registry, w: Worker): (r: Registry)
    ensures w.key in r.pool && r.pool[w.key] == w
    ensures forall k :: k != w.key ==> (k in r.pool <==> k in reg.pool)
    ensures forall k :: k != w.key && k in reg.pool ==> r.pool[k] == reg.pool[k]
    ensures |r.pool| == if w.key in reg.pool then |reg.pool| else |reg.pool| + 1
    ensures r.maxConnections == reg.maxConnections
    ensures KeysMatch(reg) ==> KeysMatch(r)
  {
    MapUpdateSize(reg.pool, w.key, w);
    reg.(pool := reg.pool[w.key := w])
  }

  /** `delete(pool, p.key)` in release: the key is gone afterwards, every
      other entry is kept, and deleting an absent key changes nothing. */
  function Release(reg: Registry, key: string): (r: Registry)
    ensures key !in r.pool
    ensures forall k :: k != key ==> (k in r.pool <==> k in reg.pool)
    ensures forall k :: k != key && k in reg.pool ==> r.pool[k] == reg.pool[k]
    ensures key !in reg.pool ==> r == reg
    ensures |r.pool| == if key in reg.pool then |reg.pool| - 1 else |reg.pool|
    ensures r.maxConnections == reg.maxConnections
    ensures KeysMatch(reg) ==> KeysMatch(r)
  {
    MapRemoveSize(reg.pool, key);
    assert key !in reg.pool ==> reg.pool - {key} == reg.pool;
    reg.(pool := reg.pool - {key})
  }

  /** release is safe to repeat: the second call changes nothing. */
  lemma ReleaseTwice(reg: Registry, key: string)
    ensures Release(Release(reg, key), key) == Release(reg, key)
  {
  }

  /** Inserting into a registry that is not full keeps the pool within the
      ceiling (for operations taken one at a time). */
  lemma InsertWithinCeiling(reg: Registry, w: Worker)
    requires !Full(reg)
    ensures |Insert(reg, w).pool| <= reg.maxConnections
  {
  }

  /** Releasing a stored session from a pool at its ceiling lets the next
      request in. */
  lemma ReleaseMakesRoom(reg: Registry, key: string)
    requires key in reg.pool && |reg.pool| == reg.maxConnections
    ensures Full(reg) && !Full(Release(reg, key))
  {
  }

  /** A worker that is released right after being stored leaves the other
      sessions as they were and its key vacant. */
  lemma InsertThenRelease(reg: Registry, w: Worker)
    requires w.key !in reg.pool
    ensures Release(Insert(reg, w), w.key) == reg
  {
    assert reg.pool[w.key := w] - {w.key} == reg.pool;
  }

  /** release deletes by key alone: when a second session was stored under
      the same key, the first session's release removes the second one's
      entry. */
  lemma StaleReleaseEvicts(reg: Registry, first: Worker, second: Worker)
    requires first.key == second.key
    ensures first.key !in Release(Insert(Insert(reg, first), second), first.key).pool
  {
  }
}

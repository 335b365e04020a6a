/**
 The map of util/sync_map.go as an object: `read` and `dirty` share `entry` objects, and the
 whole is seen by one caller at a time as a plain map.  A compare-and-swap loop runs exactly once
 when nobody interferes; interference is the subject of ConcurrentMap.
 */
module SyncMap {
  import opened Options

  /** Contents of `entry.p`. */
  datatype Ptr<V> = Nil | Expunged | Val(v: V)

  function Held<V>(p: Ptr<V>): Option<V> {
    if p.Val? then Some(p.v) else None
  }

  class Entry<V(==)> {
    var p: Ptr<V>

    constructor (v: V)
      ensures p == Val(v)
    {
      p := Val(v);
    }

    method CompareAndSwap(expected: Ptr<V>, q: Ptr<V>) returns (swapped: bool)
      modifies this
      ensures swapped == (old(p) == expected)
      ensures p == if swapped then q else old(p)
    {
      swapped := p == expected;
      if swapped { p := q; }
    }

    method Load() returns (value: Option<V>)
      ensures value == Held(p)
    {
      if p.Nil? || p.Expunged? { return None; }
      return Some(p.v);
    }

    /** trySwap: refuses an expunged entry. */
    method TrySwap(v: V) returns (previous: Ptr<V>, ok: bool)
      modifies this
      ensures ok == !old(p).Expunged?
      ensures ok ==> previous == old(p) && p == Val(v)
      ensures !ok ==> p == old(p)
    {
      previous := p;
      if previous.Expunged? { return Nil, false; }
      ok := CompareAndSwap(previous, Val(v));
    }

    method TryLoadOrStore(v: V) returns (actual: Option<V>, loaded: bool, ok: bool)
      modifies this
      ensures ok == !old(p).Expunged?
      ensures loaded == old(p).Val?
      ensures ok ==> actual == Some(if old(p).Val? then old(p).v else v) && p == Val(actual.value)
      ensures !ok ==> p == old(p)
    {
      if p.Expunged? { return None, false, false; }
      if p.Val? { return Some(p.v), true, true; }
      var stored := CompareAndSwap(Nil, Val(v));
      return Some(v), false, true;
    }

    /** tryCompareAndSwap: the value argument to compare with is never looked at. */
    method TryReplace(v: V) returns (swapped: bool)
      modifies this
      ensures swapped == old(p).Val?
      ensures p == if swapped then Val(v) else old(p)
    {
      if p.Nil? || p.Expunged? { return false; }
      swapped := CompareAndSwap(p, Val(v));
    }

    method UnexpungeLocked() returns (wasExpunged: bool)
      modifies this
      ensures wasExpunged == old(p).Expunged?
      ensures p == if wasExpunged then Nil else old(p)
    {
      wasExpunged := CompareAndSwap(Expunged, Nil);
    }

    method Delete() returns (value: Option<V>)
      modifies this
      ensures value == Held(old(p))
      ensures p == if old(p).Val? then Nil else old(p)
    {
      if p.Nil? || p.Expunged? { return None; }
      value := Some(p.v);
      var swung := CompareAndSwap(p, Nil);
    }

    method TryExpungeLocked() returns (isExpunged: bool)
      modifies this
      ensures isExpunged == !old(p).Val?
      ensures p == if isExpunged then Expunged else old(p)
    {
      if p.Nil? {
        isExpunged := CompareAndSwap(Nil, Expunged);
      } else {
        isExpunged := p.Expunged?;
      }
    }
  }

  function Lookup<K, V>(m: map<K, V>, k: K): Option<V> {
    if k in m then Some(m[k]) else None
  }

  // ------------------------------------------------------------------------------------
  // CompareAndSwap and CompareAndDelete, as the code has them and as their comments do
  // ------------------------------------------------------------------------------------

  /** Result and plain map after CompareAndSwap: the code replaces whatever is present... */
  function Replaced<K, V>(m: map<K, V>, k: K, v: V): (bool, map<K, V>) {
    if k in m then (true, m[k := v]) else (false, m)
  }

  /** ...and the comment promises to replace only the value `expected`. */
  function ReplacedIfEqual<K, V(==)>(m: map<K, V>, k: K, expected: V, v: V): (bool, map<K, V>) {
    if k in m && m[k] == expected then (true, m[k := v]) else (false, m)
  }

  function Removed<K, V>(m: map<K, V>, k: K): (bool, map<K, V>) {
    if k in m then (true, m - {k}) else (false, m)
  }

  function RemovedIfEqual<K, V(==)>(m: map<K, V>, k: K, expected: V): (bool, map<K, V>) {
    if k in m && m[k] == expected then (true, m - {k}) else (false, m)
  }

  /** The code does what the comments say exactly if the key is absent or its value is the expected one. */
  lemma AsDocumented<K, V>(m: map<K, V>, k: K, expected: V, v: V)
    ensures Replaced(m, k, v) == ReplacedIfEqual(m, k, expected, v) <==> k !in m || m[k] == expected
    ensures Removed(m, k) == RemovedIfEqual(m, k, expected) <==> k !in m || m[k] == expected
  {
  }

  /** A present value other than the expected one is replaced, and deleted, all the same. */
  lemma NotAsDocumented<K, V>(k: K, present: V, expected: V, v: V)
    requires present != expected
    ensures Replaced(map[k := present], k, v) == (true, map[k := v])
    ensures ReplacedIfEqual(map[k := present], k, expected, v) == (false, map[k := present])
    ensures Removed(map[k := present], k) == (true, map[])
    ensures RemovedIfEqual(map[k := present], k, expected) == (false, map[k := present])
  {
    assert map[k := present][k := v] == map[k := v];
    assert map[k := present] - {k} == map[];
  }

  /** A miss against a dirty map `d`, with `m` misses before it: counted, or `d` promoted when that makes as
      many misses as `d` has keys. */
  ghost predicate CountsMiss<K, V>(m: nat, d: map<K, Entry<V>>, m': nat, d': Option<map<K, Entry<V>>>,
                                   read': map<K, Entry<V>>) {
    if m + 1 < |d| then m' == m + 1 && d' == Some(d) else m' == 0 && d' == None && read' == d
  }

  /** What Range may report about the plain map `m`: live keys, none twice, all of them if the
      callback never said stop, and nothing after it did. */
  ghost predicate Visits<K, V>(m: map<K, V>, f: (K, V) -> bool, visited: seq<(K, V)>) {
    && Live(m, visited)
    && (forall i :: 0 <= i < |visited| - 1 ==> f(visited[i].0, visited[i].1))
    && ((forall i :: 0 <= i < |visited| ==> f(visited[i].0, visited[i].1)) ==>
          |visited| == |m| && forall k :: k in m ==> (k, m[k]) in visited)
  }

  ghost predicate Live<K, V>(m: map<K, V>, visited: seq<(K, V)>) {
    && (forall i :: 0 <= i < |visited| ==> visited[i].0 in m && m[visited[i].0] == visited[i].1)
    && (forall i, j :: 0 <= i < j < |visited| ==> visited[i].0 != visited[j].0)
  }

  /** Range under way: the keys outside `todo` have been dealt with. */
  ghost predicate Walking<K, V>(m: map<K, V>, f: (K, V) -> bool, todo: set<K>, visited: seq<(K, V)>) {
    && Live(m, visited) && |visited| + |m.Keys * todo| == |m|
    && (forall i :: 0 <= i < |visited| ==> f(visited[i].0, visited[i].1) && visited[i].0 !in todo)
    && (forall k :: k in m && k !in todo ==> (k, m[k]) in visited)
  }

  lemma VisitOne<K, V>(m: map<K, V>, f: (K, V) -> bool, todo: set<K>, visited: seq<(K, V)>, k: K)
    requires Walking(m, f, todo, visited) && k in todo
    ensures k !in m ==> Walking(m, f, todo - {k}, visited)
    ensures k in m && f(k, m[k]) ==> Walking(m, f, todo - {k}, visited + [(k, m[k])])
    ensures k in m && !f(k, m[k]) ==> Visits(m, f, visited + [(k, m[k])])
  {
    assert m.Keys * (todo - {k}) == m.Keys * todo - {k};
    if k in m {
      var more := visited + [(k, m[k])];
      assert more[|visited|] == (k, m[k]);
      forall x | x in m && x !in todo - {k} ensures (x, m[x]) in more {
        if x != k { assert (x, m[x]) in visited; }
      }
    }
  }

  class Map<K(==, !new), V(==, !new)> {
    var read: map<K, Entry<V>>
    var amended: bool
    var dirty: Option<map<K, Entry<V>>>
    var misses: nat

    ghost var M: map<K, V>              // the plain map this object stands for
    ghost var keyOf: map<Entry<V>, K>   // every entry ever made belongs to one key

    /** The dirty map, where a nil map reads as empty. */
    function Dirty(): map<K, Entry<V>>
      reads `dirty
    {
      if dirty.Some? then dirty.value else map[]
    }

    ghost function Entries(): set<Entry<V>>
      reads `keyOf
    {
      keyOf.Keys
    }

    /** What the structure holds for `k`. */
    ghost function At(k: K): Option<V>
      requires Links()
      reads `read, `dirty, `keyOf, Entries()
    {
      if k in read then Held(read[k].p)
      else if k in Dirty() then Held(Dirty()[k].p)
      else None
    }

    /** Each entry belongs to one key, and `dirty` shares its entries with `read`. */
    ghost predicate Links()
      reads `read, `dirty, `keyOf
    {
      && (forall k :: k in read ==> read[k] in keyOf && keyOf[read[k]] == k)
      && (forall k :: k in Dirty() ==> Dirty()[k] in keyOf && keyOf[Dirty()[k]] == k)
      && (forall k :: k in read && k in Dirty() ==> read[k] == Dirty()[k])
    }

    /** An entry of `read` is expunged exactly when `dirty` exists and lacks it. */
    ghost predicate ExpungedOk(except: set<K>)
      requires Links()
      reads `read, `dirty, `keyOf, Entries()
    {
      && (forall k :: k in read && k !in except ==> (read[k].p.Expunged? <==> dirty.Some? && k !in dirty.value))
      && (forall k :: k in Dirty() ==> !Dirty()[k].p.Expunged?)
    }

    ghost predicate Denotes()
      requires Links()
      reads `read, `dirty, `keyOf, `M, Entries()
    {
      forall k :: Lookup(M, k) == At(k)
    }

    ghost predicate Sound()
      reads this, Entries()
    {
      Links() && ExpungedOk({}) && Denotes() && (amended <==> dirty.Some?)
    }

    ghost predicate Valid()
      reads this, Entries()
    {
      Sound() && if dirty.Some? then misses < |dirty.value| else misses == 0
    }

    constructor ()
      ensures Valid() && M == map[] && fresh(Entries())
    {
      read, amended, dirty, misses := map[], false, None, 0;
      M, keyOf := map[], map[];
    }

    /** `dirty` becomes `read`, in missLocked and in Range. */
    method Promote()
      requires Sound() && dirty.Some?
      modifies this
      ensures Valid() && M == old(M) && keyOf == old(keyOf)
      ensures dirty.None? && read == old(dirty.value)
    {
      ghost var d := Dirty();
      assert forall k :: k in d ==> d[k] in keyOf && keyOf[d[k]] == k && !d[k].p.Expunged?;
      assert forall k :: Lookup(M, k) == At(k) == if k in d then Held(d[k].p) else None;
      read, amended := dirty.value, false;
      dirty := None;
      misses := 0;
    }

    method MissLocked()
      requires Sound() && dirty.Some? && misses <= |dirty.value|
      modifies this
      ensures Valid() && M == old(M) && keyOf == old(keyOf)
      ensures old(misses) + 1 < |old(dirty.value)| ==>
        misses == old(misses) + 1 && dirty == old(dirty) && read == old(read)
      ensures old(misses) + 1 >= |old(dirty.value)| ==> dirty.None? && read == old(dirty.value)
      ensures CountsMiss(old(misses), old(dirty.value), misses, dirty, read)
    {
      misses := misses + 1;
      if misses < |dirty.value| {
        assert Denotes() by {
          forall k ensures Lookup(M, k) == At(k) { assert Lookup(M, k) == old(At(k)); }
        }
        return;
      }
      Promote();
    }

    /** Load returns what the plain map holds, and leaves it alone. */
    method Load(k: K) returns (value: Option<V>)
      requires Valid()
      modifies this
      ensures Valid() && M == old(M) && keyOf == old(keyOf)
      ensures value == Lookup(M, k)
      ensures k !in old(read) && old(amended) ==> CountsMiss(old(misses), old(Dirty()), misses, dirty, read)
      ensures k in old(read) || !old(amended) ==> read == old(read) && dirty == old(dirty) && misses == old(misses)
    {
      assert Lookup(M, k) == At(k);
      if k in read {
        value := read[k].Load();
      } else if amended {
        if k in Dirty() {
          var e := Dirty()[k];
          MissLocked();
          value := e.Load();
        } else {
          value := None;
          MissLocked();
        }
      } else {
        value := None;
      }
    }

    /** Brings the plain map up to date after a write through the entry of `k`. */
    ghost method Refresh(k: K)
      requires Links() && forall x :: x != k ==> Lookup(M, x) == At(x)
      modifies `M
      ensures Denotes() && M == if At(k).Some? then old(M)[k := At(k).value] else old(M) - {k}
    {
      M := if At(k).Some? then M[k := At(k).value] else M - {k};
      forall x ensures Lookup(M, x) == At(x) {
        assert x != k ==> Lookup(old(M), x) == old(At(x));
      }
    }

    /** A dirty map under construction, with the keys `todo` still to be copied. */
    ghost predicate Copying(todo: set<K>)
      reads `read, `dirty, `keyOf, Entries()
    {
      && Links() && dirty.Some? && dirty.value.Keys <= read.Keys && todo <= read.Keys
      && ExpungedOk(todo)
      && (forall k :: k in todo ==> !read[k].p.Expunged? && k !in dirty.value)
    }

    /** One turn of the loop of dirtyLocked. */
    method CopyOne(k: K, ghost todo: set<K>)
      requires Copying(todo) && k in todo
      modifies `dirty, read[k]
      ensures Copying(todo - {k}) && !read[k].p.Nil?
      ensures forall x :: x in read ==> Held(read[x].p) == old(Held(read[x].p))
    {
      var e := read[k];
      assert forall x :: x in read && x != k ==> read[x] != e;
      var isExpunged := e.TryExpungeLocked();
      if !isExpunged {
        dirty := Some(dirty.value[k := e]);
      }
    }

    /** dirtyLocked: copies the live entries of `read` into a new dirty map and expunges the others. */
    method DirtyLocked()
      requires Valid() && !amended
      modifies `dirty, Entries()
      ensures Copying({}) && Denotes()
      ensures dirty.Some? && dirty.value.Keys <= read.Keys
      ensures forall k :: k in read ==> (k in dirty.value <==> read[k].p.Val?)
      ensures forall k :: k in read ==> (k !in dirty.value <==> read[k].p.Expunged?)
    {
      dirty := Some(map[]);
      CopyAll();
      forall k ensures Lookup(M, k) == At(k) { assert Lookup(M, k) == old(At(k)); }
    }

    /** The loop of dirtyLocked, in whatever order `read` is walked. */
    method CopyAll()
      requires Copying(read.Keys)
      modifies `dirty, Entries()
      ensures Copying({}) && forall k :: k in read ==> !read[k].p.Nil? && Held(read[k].p) == old(Held(read[k].p))
    {
      var todo := read.Keys;
      while todo != {}
        invariant Copying(todo) && forall k :: k in read && k !in todo ==> !read[k].p.Nil?
        invariant forall k :: k in read ==> Held(read[k].p) == old(Held(read[k].p))
        decreases todo
      {
        var k :| k in todo;
        CopyOne(k, todo);
        todo := todo - {k};
      }
    }

    /** The first store of a new key: a fresh entry in `dirty`. */
    method Insert(k: K, v: V)
      requires Valid() && k !in read && k !in Dirty()
      modifies this, Entries()
      ensures Valid() && M == old(M)[k := v] && fresh(Entries() - old(Entries())) && Entries() >= old(Entries())
      ensures k !in old(M)
    {
      assert Lookup(M, k) == At(k);
      if !amended {
        DirtyLocked();
        amended := true;
      }
      var e := new Entry(v);
      InsertEntry(k, v, e);
    }

    method InsertEntry(k: K, v: V, e: Entry<V>)
      requires Sound() && dirty.Some? && misses <= |dirty.value| && k !in read && k !in Dirty()
      requires e !in Entries() && e.p == Val(v)
      modifies `dirty, `keyOf, `M
      ensures Valid() && M == old(M)[k := v] && keyOf == old(keyOf)[e := k]
    {
      dirty := Some(dirty.value[k := e]);
      keyOf := keyOf[e := k];
      M := M[k := v];
      forall x ensures Lookup(M, x) == At(x) {
        assert Lookup(old(M), x) == old(At(x));
      }
    }

    /** An expunged entry of `read` becomes usable again and returns to `dirty`. */
    method Revive(k: K)
      requires Valid() && k in read
      modifies `dirty, read[k]
      ensures Valid() && !read[k].p.Expunged? && Held(read[k].p) == old(Held(read[k].p))
    {
      var e := read[k];
      var wasExpunged := e.UnexpungeLocked();
      if wasExpunged {
        assert forall x :: x in read && x != k ==> read[x] != e;
        dirty := Some(dirty.value[k := e]);
      }
      forall x ensures Lookup(M, x) == At(x) {
        assert Lookup(M, x) == old(At(x));
      }
    }

    method Swap(k: K, v: V) returns (previous: Option<V>)
      requires Valid()
      modifies this, Entries()
      ensures Valid() && M == old(M)[k := v] && fresh(Entries() - old(Entries()))
      ensures previous == old(Lookup(M, k))
    {
      assert Lookup(M, k) == At(k);
      if k in read {
        var e := read[k];
        var was, ok := e.TrySwap(v);
        if ok {
          Swung(k, e);
          return Held(was);
        }
      }
      if k in read {
        Revive(k);
        previous := SwapLocked(k, read[k], v);
      } else if k in Dirty() {
        previous := SwapLocked(k, Dirty()[k], v);
      } else {
        previous := None;
        Insert(k, v);
      }
    }

    /** The entry through which `k` is found. */
    ghost predicate Finds(k: K, e: Entry<V>)
      reads `read, `dirty
    {
      (k in read && read[k] == e) || (k !in read && k in Dirty() && Dirty()[k] == e)
    }

    /** Only the entry `e` of `k` was written, and it is not expunged. */
    ghost method Swung(k: K, e: Entry<V>)
      requires Links() && ExpungedOk({}) && (amended <==> dirty.Some?) && Finds(k, e)
      requires if dirty.Some? then misses < |dirty.value| else misses == 0
      requires forall x :: x != k ==> Lookup(M, x) == At(x)
      modifies `M
      ensures Valid() && M == if e.p.Val? then old(M)[k := e.p.v] else old(M) - {k}
    {
      Refresh(k);
    }

    method SwapLocked(k: K, e: Entry<V>, v: V) returns (previous: Option<V>)
      requires Valid() && Finds(k, e) && !e.p.Expunged?
      modifies `M, e
      ensures Valid() && M == old(M)[k := v] && previous == old(Held(e.p))
    {
      previous := Held(e.p);
      assert forall x :: x in read && x != k ==> read[x] != e;
      assert forall x :: x in Dirty() && x != k ==> Dirty()[x] != e;
      assert forall x :: Lookup(M, x) == At(x);
      e.p := Val(v);
      Swung(k, e);
    }

    method Store(k: K, v: V)
      requires Valid()
      modifies this, Entries()
      ensures Valid() && M == old(M)[k := v] && fresh(Entries() - old(Entries()))
    {
      var _ := Swap(k, v);
    }

    method LoadOrStore(k: K, v: V) returns (actual: V, loaded: bool)
      requires Valid()
      modifies this, Entries()
      ensures Valid() && fresh(Entries() - old(Entries()))
      ensures loaded == (k in old(M))
      ensures actual == if loaded then old(M)[k] else v
      ensures M == if loaded then old(M) else old(M)[k := v]
      ensures k !in old(read) && k in old(Dirty()) ==> CountsMiss(old(misses), old(Dirty()), misses, dirty, read)
    {
      assert Lookup(M, k) == At(k);
      if k in read {
        var e := read[k];
        var got, had, ok := e.TryLoadOrStore(v);
        if ok {
          Swung(k, e);
          return got.value, had;
        }
      }
      if k in read {
        Revive(k);
        actual, loaded := LoadOrStoreLocked(k, read[k], v);
      } else if k in Dirty() {
        actual, loaded := LoadOrStoreLocked(k, Dirty()[k], v);
        MissLocked();
      } else {
        Insert(k, v);
        actual, loaded := v, false;
      }
    }

    method LoadOrStoreLocked(k: K, e: Entry<V>, v: V) returns (actual: V, loaded: bool)
      requires Valid() && Finds(k, e) && !e.p.Expunged?
      modifies `M, e
      ensures Valid()
      ensures loaded == old(e.p.Val?)
      ensures actual == if loaded then old(e.p.v) else v
      ensures M == if loaded then old(M) else old(M)[k := v]
    {
      assert forall x :: x in read && x != k ==> read[x] != e;
      assert forall x :: x in Dirty() && x != k ==> Dirty()[x] != e;
      assert forall x :: Lookup(M, x) == At(x);
      assert Lookup(M, k) == Held(e.p);
      var got, had, _ := e.TryLoadOrStore(v);
      Swung(k, e);
      actual, loaded := got.value, had;
      assert had ==> old(M)[k := got.value] == old(M);
    }

    /** `delete(m.dirty, key)`: the entry leaves the map together with its value. */
    method Cut(k: K)
      requires Valid() && k !in read && k in Dirty()
      modifies `dirty, `M
      ensures Sound() && dirty == Some(old(Dirty()) - {k}) && misses <= |dirty.value| && M == old(M) - {k}
      ensures forall x :: x in read || x in Dirty() ==> x != k
    {
      ghost var d := Dirty();
      assert |(d - {k}).Keys| == |d.Keys| - 1 by { assert (d - {k}).Keys == d.Keys - {k}; }
      assert forall x :: Lookup(M, x) == At(x);
      dirty := Some(Dirty() - {k});
      Refresh(k);
    }

    /** A key found only through `dirty` is taken out of it, and its value handed to the caller. */
    method Unlink(k: K) returns (value: Option<V>)
      requires Valid() && k !in read && k in Dirty()
      modifies this, Entries()
      ensures Valid() && M == old(M) - {k} && value == old(Lookup(M, k)) && keyOf == old(keyOf)
      ensures CountsMiss(old(misses), old(Dirty()) - {k}, misses, dirty, read)
    {
      var e := Dirty()[k];
      assert Lookup(M, k) == At(k);
      Cut(k);
      MissLocked();
      assert forall x :: x in read ==> read[x] != e;
      assert forall x :: x in Dirty() ==> Dirty()[x] != e;
      assert forall x :: Lookup(M, x) == At(x);
      value := e.Delete();
    }

    method LoadAndDelete(k: K) returns (value: Option<V>)
      requires Valid()
      modifies this, Entries()
      ensures Valid() && M == old(M) - {k} && value == old(Lookup(M, k)) && keyOf == old(keyOf)
      ensures k !in old(read) && old(amended) ==> CountsMiss(old(misses), old(Dirty()) - {k}, misses, dirty, read)
    {
      assert Lookup(M, k) == At(k);
      assert k !in Dirty() ==> Dirty() - {k} == Dirty();
      if k in read {
        value := DeleteEntry(k, read[k]);
      } else if amended {
        if k in Dirty() {
          value := Unlink(k);
        } else {
          value := None;
          MissLocked();
        }
      } else {
        value := None;
      }
    }

    method DeleteEntry(k: K, e: Entry<V>) returns (value: Option<V>)
      requires Valid() && Finds(k, e)
      modifies `M, e
      ensures Valid() && M == old(M) - {k} && value == old(Held(e.p))
    {
      assert forall x :: x in read && x != k ==> read[x] != e;
      assert forall x :: x in Dirty() && x != k ==> Dirty()[x] != e;
      assert forall x :: Lookup(M, x) == At(x);
      value := e.Delete();
      Swung(k, e);
    }

    method Delete(k: K)
      requires Valid()
      modifies this, Entries()
      ensures Valid() && M == old(M) - {k} && keyOf == old(keyOf)
    {
      var _ := LoadAndDelete(k);
    }

    /** Replaces whatever value is present: `expected` is never compared, although the source's
        comment says it is. */
    method CompareAndSwap(k: K, expected: V, v: V) returns (swapped: bool)
      requires Valid()
      modifies this, Entries()
      ensures Valid() && keyOf == old(keyOf)
      ensures (swapped, M) == Replaced(old(M), k, v)
      ensures k !in old(read) && k in old(Dirty()) ==> CountsMiss(old(misses), old(Dirty()), misses, dirty, read)
    {
      assert Lookup(M, k) == At(k);
      if k in read {
        swapped := ReplaceEntry(k, read[k], v);
      } else if !amended {
        swapped := false;
      } else if k in Dirty() {
        swapped := ReplaceEntry(k, Dirty()[k], v);
        MissLocked();
      } else {
        swapped := false;
      }
    }

    method ReplaceEntry(k: K, e: Entry<V>, v: V) returns (swapped: bool)
      requires Valid() && Finds(k, e)
      modifies `M, e
      ensures Valid() && swapped == old(e.p.Val?)
      ensures M == if swapped then old(M)[k := v] else old(M)
    {
      assert forall x :: x in read && x != k ==> read[x] != e;
      assert forall x :: x in Dirty() && x != k ==> Dirty()[x] != e;
      assert forall x :: Lookup(M, x) == At(x);
      assert Lookup(M, k) == Held(e.p);
      swapped := e.TryReplace(v);
      Swung(k, e);
      assert !swapped ==> old(M) - {k} == old(M);
    }

    /** Deletes whatever value is present: `expected` is never compared. */
    method CompareAndDelete(k: K, expected: V) returns (deleted: bool)
      requires Valid()
      modifies this, Entries()
      ensures Valid() && keyOf == old(keyOf)
      ensures (deleted, M) == Removed(old(M), k)
      ensures k !in old(read) && old(amended) ==> CountsMiss(old(misses), old(Dirty()), misses, dirty, read)
    {
      assert Lookup(M, k) == At(k);
      assert k !in M ==> M - {k} == M;
      deleted := false;
      if k in read {
        var value := DeleteEntry(k, read[k]);
        deleted := value.Some?;
      } else if amended {
        if k in Dirty() {
          var e := Dirty()[k];
          MissLocked();
          var value := DeleteEntry(k, e);
          deleted := value.Some?;
        } else {
          MissLocked();
        }
      }
    }

    method Range(f: (K, V) -> bool) returns (visited: seq<(K, V)>)
      requires Valid()
      modifies this
      ensures Valid() && M == old(M) && keyOf == old(keyOf)
      ensures Visits(M, f, visited)
      ensures !amended && (old(amended) ==> read == old(Dirty())) && (!old(amended) ==> read == old(read))
    {
      if amended {
        Promote();
      }
      forall k ensures Lookup(M, k) == if k in read then Held(read[k].p) else None { assert Lookup(M, k) == At(k); }
      visited := Walk(f, M);
    }

    /** The loop of Range over the snapshot of `read`. */
    method Walk(f: (K, V) -> bool, ghost m: map<K, V>) returns (visited: seq<(K, V)>)
      requires forall k :: Lookup(m, k) == if k in read then Held(read[k].p) else None
      ensures Visits(m, f, visited)
    {
      visited := [];
      var todo := read.Keys;
      assert m.Keys * todo == m.Keys by {
        forall k | k in m ensures k in todo { assert Lookup(m, k).Some?; }
      }
      while todo != {}
        invariant todo <= read.Keys && Walking(m, f, todo, visited)
        decreases todo
      {
        var k :| k in todo;
        var value := read[k].Load();
        assert value == Lookup(m, k);
        VisitOne(m, f, todo, visited, k);
        todo := todo - {k};
        if value.Some? {
          visited := visited + [(k, value.value)];
          if !f(k, value.value) { return; }
        }
      }
      assert m.Keys * todo == {};
    }

    method Keys() returns (keys: seq<K>)
      requires Valid()
      modifies this
      ensures Valid() && M == old(M)
      ensures |keys| == |M| && (forall k :: k in keys <==> k in M)
      ensures forall i, j :: 0 <= i < j < |keys| ==> keys[i] != keys[j]
    {
      var visited := Range((k, v) => true);
      keys := [];
      for i := 0 to |visited|
        invariant |keys| == i && forall j :: 0 <= j < i ==> keys[j] == visited[j].0
      {
        keys := keys + [visited[i].0];
      }
      forall k | k in M ensures k in keys {
        var i :| 0 <= i < |visited| && visited[i] == (k, M[k]);
        assert keys[i] == k;
      }
    }

    /** The values, one for each key of the plain map. */
    method Values() returns (values: seq<V>, ghost keys: seq<K>)
      requires Valid()
      modifies this
      ensures Valid() && M == old(M)
      ensures |values| == |keys| == |M| && (forall k :: k in keys <==> k in M)
      ensures forall i, j :: 0 <= i < j < |keys| ==> keys[i] != keys[j]
      ensures forall i :: 0 <= i < |keys| ==> keys[i] in M && values[i] == M[keys[i]]
    {
      var visited := Range((k, v) => true);
      values, keys := [], [];
      for i := 0 to |visited|
        invariant |values| == |keys| == i
        invariant forall j :: 0 <= j < i ==> keys[j] == visited[j].0 && values[j] == visited[j].1
      {
        values, keys := values + [visited[i].1], keys + [visited[i].0];
      }
      forall k | k in M ensures k in keys {
        var i :| 0 <= i < |visited| && visited[i] == (k, M[k]);
        assert keys[i] == k;
      }
    }

    method Count() returns (count: nat)
      requires Valid()
      modifies this
      ensures Valid() && M == old(M) && count == |M|
    {
      var visited := Range((k, v) => true);
      count := 0;
      for i := 0 to |visited|
        invariant count == i
      {
        count := count + 1;
      }
    }
  }
}

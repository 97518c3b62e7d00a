/** The owner and path caches of the process collector: 512 buckets of eight ways, keyed by process
    number and start time. */
module ProcessCaches {
  import opened Bytes

  const WAYS: nat := 8
  const BUCKETS: nat := 512
  const PATH_MISS_REFRESH: u32 := 5000
  const OWNER_REFRESH: u32 := 30000
  const OWNER_MISS_REFRESH: u32 := 5000

  datatype Key = Key(pid: u32, started: u64)
  datatype Entry<T> = Entry(valid: bool, key: Key, checkedAt: u32, lastUsed: u32, value: T)
  datatype Stored<T> = Stored(checkedAt: u32, value: T)

  function Wrap(v: nat): u32 {
    v % 0x1_0000_0000
  }

  function Mix(h: nat): nat {
    var a := Wrap(Xor(h, h / 0x1_0000) * 0x7FEB352D);
    var b := Wrap(Xor(a, a / 0x8000) * 0x846CA68B);
    Xor(b, b / 0x1_0000)
  }

  function Bucket(key: Key): (b: nat)
    ensures b < BUCKETS
  {
    Mix(Xor(Xor(key.pid, key.started % 0x1_0000_0000), key.started / 0x1_0000_0000)) % BUCKETS
  }

  predicate Is<T>(e: Entry<T>, key: Key) {
    e.valid && e.key == key
  }

  predicate InBucket(i: nat, key: Key) {
    WAYS * Bucket(key) <= i < WAYS * Bucket(key) + WAYS
  }

  /** The way a key occupies, if any. */
  ghost predicate At<T>(es: seq<Entry<T>>, key: Key, i: nat) {
    i < |es| && Is(es[i], key)
  }

  ghost predicate Holds<T>(es: seq<Entry<T>>, key: Key) {
    exists i :: At(es, key, i)
  }

  predicate InPlace<T>(es: seq<Entry<T>>) {
    forall i :: 0 <= i < |es| && es[i].valid ==> InBucket(i, es[i].key)
  }

  predicate OneEach<T>(es: seq<Entry<T>>) {
    forall i, j :: 0 <= i < j < |es| && es[i].valid && es[j].valid ==> es[i].key != es[j].key
  }

  ghost predicate Faithful<T>(e: Entry<T>, stored: map<Key, Stored<T>>) {
    e.key in stored && stored[e.key] == Stored(e.checkedAt, e.value)
  }

  /** Every way in use is in its key's bucket, is the only one of its key, and repeats what was last
      stored for that key. */
  ghost predicate Inv<T>(es: seq<Entry<T>>, stored: map<Key, Stored<T>>) {
    |es| == WAYS * BUCKETS && InPlace(es) && OneEach(es)
    && forall i :: 0 <= i < |es| && es[i].valid ==> Faithful(es[i], stored)
  }

  /** Way i may be given up at this time: no way of its bucket is vacant and none is older. */
  ghost predicate Oldest<T>(es: seq<Entry<T>>, i: nat, b: nat, now: u32)
    requires |es| == WAYS * BUCKETS && b < BUCKETS
  {
    WAYS * b <= i < WAYS * b + WAYS
    && forall w :: WAYS * b <= w < WAYS * b + WAYS ==> es[w].valid && Age(now, es[w].lastUsed) <= Age(now, es[i].lastUsed)
  }

  /** Writing a key's data into a way of its bucket that holds it, or when no way does. */
  lemma InvStore<T>(es: seq<Entry<T>>, stored: map<Key, Stored<T>>, i: nat, e: Entry<T>)
    requires Inv(es, stored) && i < |es| && e.valid && InBucket(i, e.key)
    requires At(es, e.key, i) || !Holds(es, e.key)
    ensures Inv(es[i := e], stored[e.key := Stored(e.checkedAt, e.value)])
  {
    hide Bucket, InBucket;
    var (t, more) := (es[i := e], stored[e.key := Stored(e.checkedAt, e.value)]);
    forall k | 0 <= k < |t| && k != i && t[k].valid ensures t[k].key != e.key {
      assert At(es, e.key, k) ==> Holds(es, e.key);
    }
    forall k | 0 <= k < |t| && t[k].valid ensures Faithful(t[k], more) {
      if k != i {
        assert Faithful(es[k], stored);
      }
    }
  }

  lemma SameHolders<T>(es: seq<Entry<T>>, t: seq<Entry<T>>, i: nat)
    requires i < |es| == |t| && t == es[i := t[i]] && t[i].key == es[i].key && t[i].valid == es[i].valid
    ensures forall k :: Holds(t, k) <==> Holds(es, k)
  {
    forall k ensures Holds(t, k) <==> Holds(es, k) {
      if j :| At(es, k, j) {
        assert At(t, k, j);
      }
      if j :| At(t, k, j) {
        assert At(es, k, j);
      }
    }
  }

  lemma NotHeld<T>(es: seq<Entry<T>>, key: Key)
    requires |es| == WAYS * BUCKETS && InPlace(es)
    requires forall w :: WAYS * Bucket(key) <= w < WAYS * Bucket(key) + WAYS ==> !Is(es[w], key)
    ensures !Holds(es, key)
  {
    hide Bucket;
    forall i: nat | i < |es| ensures !At(es, key, i) {
      assert es[i].valid ==> InBucket(i, es[i].key);
    }
  }

  lemma InvTouch<T>(es: seq<Entry<T>>, stored: map<Key, Stored<T>>, i: nat, now: u32)
    requires Inv(es, stored) && i < |es| && es[i].valid
    ensures Inv(es[i := es[i].(lastUsed := now)], stored)
  {
    hide Bucket, InBucket;
    var t := es[i := es[i].(lastUsed := now)];
    forall k | 0 <= k < |t| && t[k].valid ensures Faithful(t[k], stored) {
      assert Faithful(es[k], stored);
    }
  }

  /** A lookup marks the key's way as used now, if it has one, and changes nothing else. */
  ghost predicate Touched<T>(es: seq<Entry<T>>, key: Key, now: u32, next: seq<Entry<T>>) {
    if Holds(es, key) then exists i: nat :: At(es, key, i) && next == es[i := es[i].(lastUsed := now)] else next == es
  }

  class Cache<T(0)> {
    const entries: array<Entry<T>>
    ghost var stored: map<Key, Stored<T>>

    ghost predicate Valid()
      reads this, entries
    {
      entries.Length == WAYS * BUCKETS && Inv(entries[..], stored)
    }

    constructor (empty: T)
      ensures Valid() && fresh(entries) && stored == map[]
    {
      entries := new Entry<T>[WAYS * BUCKETS](_ => Entry(false, Key(0, 0), 0, 0, empty));
      stored := map[];
    }

    /** The way for a key: its own, marked as used now, or the one a new entry should go to. */
    method EntryFor(key: Key, now: u32) returns (index: nat, matched: bool)
      requires Valid()
      modifies entries
      ensures Valid() && index < entries.Length && InBucket(index, key)
      ensures matched <==> Holds(old(entries[..]), key)
      ensures matched ==>
        Is(old(entries[index]), key) && entries[..] == old(entries[..][index := entries[index].(lastUsed := now)])
      ensures !matched ==> entries[..] == old(entries[..])
      ensures !matched ==> !entries[index].valid || Oldest(entries[..], index, Bucket(key), now)
    {
      hide Bucket;
      var b := Bucket(key);
      var first := WAYS * b;
      var vacant: int, oldest: int, oldestAge: u32 := -1, -1, 0;
      ghost var es := entries[..];
      for way := 0 to WAYS
        invariant entries[..] == es
        invariant forall w :: first <= w < first + way ==> !Is(es[w], key)
        invariant vacant == -1 || (first <= vacant < first + way && !es[vacant].valid)
        invariant vacant == -1 ==> forall w :: first <= w < first + way ==> es[w].valid
        invariant oldest == -1 <==> forall w :: first <= w < first + way ==> !es[w].valid
        invariant oldest != -1 ==> first <= oldest < first + way && oldestAge == Age(now, es[oldest].lastUsed)
        invariant oldest != -1 ==> forall w :: first <= w < first + way && es[w].valid ==> Age(now, es[w].lastUsed) <= oldestAge
      {
        var i := first + way;
        if entries[i].valid && entries[i].key == key {
          assert At(es, key, i);
          InvTouch(es, stored, i, now);
          entries[i] := entries[i].(lastUsed := now);
          assert entries[..] == es[i := es[i].(lastUsed := now)];
          return i, true;
        }
        if !entries[i].valid {
          if vacant == -1 { vacant := i; }
        } else {
          var age := Age(now, entries[i].lastUsed);
          if oldest == -1 || age > oldestAge { oldest, oldestAge := i, age; }
        }
      }
      NotHeld(es, key);
      assert vacant == -1 ==> es[first].valid;
      return if vacant != -1 then vacant else oldest, false;
    }

    /** Remembers a reading. The key ends up cached with it, and no other key is lost unless its way was
        the oldest of a full bucket that did not have the key. */
    method Store(key: Key, now: u32, value: T) returns (index: nat)
      requires Valid()
      modifies this`stored, entries
      ensures Valid() && stored == old(stored)[key := Stored(now, value)]
      ensures index < entries.Length && InBucket(index, key)
      ensures entries[..] == old(entries[..][index := Entry(true, key, now, now, value)])
      ensures Is(old(entries[index]), key) || (!Holds(old(entries[..]), key)
        && (!old(entries[index]).valid || Oldest(old(entries[..]), index, Bucket(key), now)))
    {
      ghost var es := entries[..];
      var way, matched := EntryFor(key, now);
      index := way;
      var e := Entry(true, key, now, now, value);
      assert matched ==> At(entries[..], key, index);
      InvStore(entries[..], stored, index, e);
      ghost var after := entries[..][index := e];
      entries[index] := e;
      stored := stored[key := Stored(now, value)];
      assert entries[..] == after == es[index := e];
    }

    /** Reads the way of a key, if it has one: then it is what was last stored for exactly this key. */
    method Find(key: Key, now: u32) returns (e: Option<Entry<T>>)
      requires Valid()
      modifies entries
      ensures Valid() && (e.Some? <==> Holds(old(entries[..]), key))
      ensures e.Some? ==> Is(e.value, key) && key in stored && stored[key] == Stored(e.value.checkedAt, e.value.value)
      ensures Touched(old(entries[..]), key, now, entries[..])
      ensures forall k :: Holds(entries[..], k) <==> Holds(old(entries[..]), k)
    {
      ghost var es := entries[..];
      var index, matched := EntryFor(key, now);
      if !matched { return None; }
      assert Faithful(entries[..][index], stored);
      assert At(es, key, index) && entries[..] == es[index := es[index].(lastUsed := now)];
      SameHolders(es, entries[..], index);
      return Some(entries[index]);
    }
  }

  /** Writing a way changes who is held only by the key written and the one that was there. */
  lemma Refines<T>(es: seq<Entry<T>>, i: nat, e: Entry<T>, other: Key)
    requires i < |es| && e.valid && other != e.key
    ensures Holds(es[i := e], e.key)
    ensures Holds(es[i := e], other) ==> Holds(es, other)
    ensures Holds(es, other) && !Holds(es[i := e], other) ==> At(es, other, i)
  {
    var t := es[i := e];
    assert At(t, e.key, i);
    if k :| At(t, other, k) {
      assert At(es, other, k);
    }
    if k :| At(es, other, k) {
      if k != i {
        assert At(t, other, k);
      }
    }
  }

  /** Evicting a key from a full bucket forgets that key and nothing else. */
  lemma Evicted<T>(es: seq<Entry<T>>, i: nat, e: Entry<T>)
    requires OneEach(es) && i < |es| && e.valid && es[i].valid && es[i].key != e.key
    ensures Holds(es, es[i].key) && !Holds(es[i := e], es[i].key)
  {
    assert At(es, es[i].key, i);
  }

  // ---- Sequences of calls -----------------------------------------------------------------------------------

  datatype Call<T> = Put(key: Key, now: u32, value: T) | Get(key: Key, now: u32)

  /** The last call that stored something for a key. */
  function LastPut<T>(calls: seq<Call<T>>, key: Key): (n: Option<nat>)
    ensures n.Some? ==> n.value < |calls| && calls[n.value].Put? && calls[n.value].key == key
  {
    if calls == [] then None
    else
      var n := |calls| - 1;
      if calls[n].Put? && calls[n].key == key then Some(n) else LastPut(calls[..n], key)
  }

  /** The reference: a map that forgets nothing. */
  function Latest<T>(calls: seq<Call<T>>, key: Key): Option<Stored<T>> {
    var n := LastPut(calls, key);
    if n.None? then None else Some(Stored(calls[n.value].now, calls[n.value].value))
  }

  /** In this state the call takes the key's way: its bucket is full, without the new key, and no way of it is
      older by the wrapped clock. */
  ghost predicate Evicts<T>(es: seq<Entry<T>>, call: Call<T>, key: Key) {
    |es| == WAYS * BUCKETS && call.Put? && call.key != key && !Holds(es, call.key)
    && exists i :: At(es, key, i) && Oldest(es, i, Bucket(call.key), call.now)
  }

  /** A store writes the key's own way, or a vacant one of its bucket, or the oldest of a full one. */
  ghost predicate Places<T>(es: seq<Entry<T>>, call: Call<T>, next: seq<Entry<T>>, i: nat)
    requires |es| == WAYS * BUCKETS && call.Put?
  {
    i < |es| && InBucket(i, call.key) && next == es[i := Entry(true, call.key, call.now, call.now, call.value)]
    && (Is(es[i], call.key) || (!Holds(es, call.key) && (!es[i].valid || Oldest(es, i, Bucket(call.key), call.now))))
  }

  /** One call moves the cache from one state to the next. */
  ghost predicate Moves<T>(es: seq<Entry<T>>, call: Call<T>, next: seq<Entry<T>>) {
    |es| == WAYS * BUCKETS
    && if call.Get? then Touched(es, call.key, call.now, next) else exists i: nat :: Places(es, call, next, i)
  }

  /** The states a cache goes through. */
  ghost predicate Trail<T>(start: seq<Entry<T>>, calls: seq<Call<T>>, states: seq<seq<Entry<T>>>) {
    |states| == |calls| + 1 && states[0] == start
    && forall m :: 0 <= m < |calls| ==> Moves(states[m], calls[m], states[m + 1])
  }

  lemma TrailMore<T>(start: seq<Entry<T>>, calls: seq<Call<T>>, states: seq<seq<Entry<T>>>, call: Call<T>, next: seq<Entry<T>>)
    requires Trail(start, calls, states) && Moves(states[|calls|], call, next)
    ensures Trail(start, calls + [call], states + [next])
  {
    hide Moves;
  }

  /** The key is cached, was never stored, or was evicted after it was last stored. */
  ghost predicate Accounted<T>(calls: seq<Call<T>>, states: seq<seq<Entry<T>>>, es: seq<Entry<T>>, key: Key)
    requires |states| == |calls|
  {
    var n := LastPut(calls, key);
    n.None? || Holds(es, key) || exists m :: n.value < m < |calls| && Evicts(states[m], calls[m], key)
  }

  lemma AccountedMore<T>(calls: seq<Call<T>>, states: seq<seq<Entry<T>>>, es: seq<Entry<T>>, call: Call<T>,
      next: seq<Entry<T>>, key: Key)
    requires |states| == |calls| && Accounted(calls, states, es, key)
    requires Holds(next, key) || (!(call.Put? && call.key == key) && (!Holds(es, key) || Evicts(es, call, key)))
    ensures Accounted(calls + [call], states + [es], next, key)
  {
    hide Evicts;
    var (more, all) := (calls + [call], states + [es]);
    assert more[..|calls|] == calls;
    if !Holds(next, key) && LastPut(calls, key).Some? {
      if Holds(es, key) {
        assert Evicts(all[|calls|], more[|calls|], key);
      } else {
        var m :| LastPut(calls, key).value < m < |calls| && Evicts(states[m], calls[m], key);
        assert Evicts(all[m], more[m], key);
      }
    }
  }

  lemma LatestMore<T>(calls: seq<Call<T>>, call: Call<T>, key: Key)
    ensures Latest(calls + [call], key) ==
      if call.Put? && call.key == key then Some(Stored(call.now, call.value)) else Latest(calls, key)
  {
    assert (calls + [call])[..|calls|] == calls;
  }

  /** The ghost map of a cache is the reference. */
  ghost predicate Mirrors<T>(stored: map<Key, Stored<T>>, calls: seq<Call<T>>) {
    forall key :: (key in stored <==> Latest(calls, key).Some?)
      && (key in stored ==> Latest(calls, key) == Some(stored[key]))
  }

  /** What a lookup may answer: what the map does, or nothing once the key was evicted. */
  ghost predicate Answers<T>(answer: Option<Stored<T>>, calls: seq<Call<T>>, states: seq<seq<Entry<T>>>, key: Key)
    requires |states| == |calls|
  {
    if answer.Some? then answer == Latest(calls, key)
    else
      var n := LastPut(calls, key);
      n.None? || exists m :: n.value < m < |calls| && Evicts(states[m], calls[m], key)
  }

  lemma PutMoves<T>(es: seq<Entry<T>>, call: Call<T>, index: nat, next: seq<Entry<T>>)
    requires |es| == WAYS * BUCKETS && call.Put? && Places(es, call, next, index)
    ensures Moves(es, call, next)
  {}

  lemma GetMoves<T>(es: seq<Entry<T>>, call: Call<T>, next: seq<Entry<T>>)
    requires |es| == WAYS * BUCKETS && call.Get? && Touched(es, call.key, call.now, next)
    ensures Moves(es, call, next)
  {}

  lemma Start<T>(stored: map<Key, Stored<T>>, es: seq<Entry<T>>)
    requires stored == map[]
    ensures Mirrors(stored, []) && forall key :: Accounted([], [], es, key)
  {}

  lemma PutMore<T>(calls: seq<Call<T>>, states: seq<seq<Entry<T>>>, es: seq<Entry<T>>, stored: map<Key, Stored<T>>,
      call: Call<T>, index: nat, next: seq<Entry<T>>)
    requires |states| == |calls| && call.Put? && Mirrors(stored, calls) && Inv(es, stored) && index < |es|
    requires forall key :: Accounted(calls, states, es, key)
    requires next == es[index := Entry(true, call.key, call.now, call.now, call.value)]
    requires Is(es[index], call.key) || (!Holds(es, call.key)
      && (!es[index].valid || Oldest(es, index, Bucket(call.key), call.now)))
    ensures Mirrors(stored[call.key := Stored(call.now, call.value)], calls + [call])
    ensures forall key :: Accounted(calls + [call], states + [es], next, key)
  {
    hide Accounted, Bucket, Latest, LastPut;
    var e := Entry(true, call.key, call.now, call.now, call.value);
    forall key ensures Latest(calls + [call], key) ==
      if call.key == key then Some(Stored(call.now, call.value)) else Latest(calls, key) {
      LatestMore(calls, call, key);
    }
    forall key ensures Accounted(calls + [call], states + [es], next, key) {
      if key == call.key {
        assert At(next, key, index);
      } else {
        Refines(es, index, e, key);
      }
      AccountedMore(calls, states, es, call, next, key);
    }
  }

  lemma GetMore<T>(calls: seq<Call<T>>, states: seq<seq<Entry<T>>>, es: seq<Entry<T>>, stored: map<Key, Stored<T>>,
      call: Call<T>, answer: Option<Stored<T>>, next: seq<Entry<T>>)
    requires |states| == |calls| && call.Get? && Mirrors(stored, calls)
    requires forall key :: Accounted(calls, states, es, key)
    requires answer.Some? <==> Holds(es, call.key)
    requires answer.Some? ==> call.key in stored && stored[call.key] == answer.value
    requires forall key :: Holds(next, key) <==> Holds(es, key)
    ensures Mirrors(stored, calls + [call]) && Answers(answer, calls, states, call.key)
    ensures forall key :: Accounted(calls + [call], states + [es], next, key)
  {
    hide Evicts, Holds;
    forall key ensures Latest(calls + [call], key) == Latest(calls, key) {
      LatestMore(calls, call, key);
    }
    assert Accounted(calls, states, es, call.key);
    forall key ensures Accounted(calls + [call], states + [es], next, key) {
      AccountedMore(calls, states, es, call, next, key);
    }
  }

  /** Any sequence of stores and lookups against the map: a lookup never answers anything but what was last
      stored for exactly its key, and misses only a key that was never stored or that a store since then evicted
      from its full bucket as one of the oldest. */
  method Session<T(0)>(c: Cache<T>, calls: seq<Call<T>>)
    returns (answers: seq<Option<Stored<T>>>, ghost states: seq<seq<Entry<T>>>)
    requires c.Valid() && c.stored == map[]
    modifies c`stored, c.entries
    ensures c.Valid() && |answers| == |calls| && Trail(old(c.entries[..]), calls, states)
    ensures c.entries[..] == states[|calls|]
    ensures forall k :: 0 <= k < |calls| && calls[k].Get? ==> Answers(answers[k], calls[..k], states[..k], calls[k].key)
  {
    hide Bucket, Accounted, Mirrors, Answers, Holds, Moves, Touched, InBucket;
    answers, states := [], [c.entries[..]];
    Start(c.stored, c.entries[..]);
    ghost var start := c.entries[..];
    assert states[..0] == [];
    for k := 0 to |calls|
      invariant c.Valid() && |answers| == k && Mirrors(c.stored, calls[..k])
      invariant Trail(start, calls[..k], states) && c.entries[..] == states[k]
      invariant forall key :: Accounted(calls[..k], states[..k], c.entries[..], key)
      invariant forall j :: 0 <= j < k && calls[j].Get? ==> Answers(answers[j], calls[..j], states[..j], calls[j].key)
    {
      var call := calls[k];
      ghost var (es, stored, was) := (c.entries[..], c.stored, states);
      assert calls[..k + 1] == calls[..k] + [call];
      match call {
        case Put(key, now, value) =>
          var index := c.Store(key, now, value);
          PutMoves(es, call, index, c.entries[..]);
          PutMore(calls[..k], was[..k], es, stored, call, index, c.entries[..]);
          answers := answers + [None];
        case Get(key, now) =>
          var e := c.Find(key, now);
          GetMoves(es, call, c.entries[..]);
          var answer := if e.Some? then Some(Stored(e.value.checkedAt, e.value.value)) else None;
          GetMore(calls[..k], was[..k], es, stored, call, answer, c.entries[..]);
          answers := answers + [answer];
      }
      TrailMore(start, calls[..k], was, call, c.entries[..]);
      states := was + [c.entries[..]];
      assert states[..k + 1] == was[..k] + [es];
      assert forall j :: 0 <= j <= k ==> states[..j] == was[..j];
    }
    assert calls[..|calls|] == calls;
  }

  // ---- The two caches -------------------------------------------------------------------------------------

  datatype Owner = Owner(name: string, denied: bool)
  datatype Path = Path(path: Option<string>, denied: bool)

  /** A known owner is good for thirty seconds, a failed lookup for five. */
  predicate OwnerFresh(s: Stored<Owner>, now: u32) {
    Age(now, s.checkedAt) < if s.value.name != "" then OWNER_REFRESH else OWNER_MISS_REFRESH
  }

  /** A found path is good for the life of the process, a failed lookup for five seconds. */
  predicate PathFresh(s: Stored<Path>, now: u32) {
    s.value.path.Some? || Age(now, s.checkedAt) < PATH_MISS_REFRESH
  }

  lemma Elapsed(since: nat, now: nat)
    requires since <= now < since + 0x1_0000_0000
    ensures Age(Wrap(now), Wrap(since)) == now - since
  {
    assert (now - since) % 0x1_0000_0000 == now - since;
    assert Wrap(now) - Wrap(since) == now - since - 0x1_0000_0000 * (now / 0x1_0000_0000 - since / 0x1_0000_0000);
    var laps := now / 0x1_0000_0000 - since / 0x1_0000_0000;
    assert laps == 0 || laps == 1;
  }

  /** In milliseconds since the system started, whatever the 32-bit tick count made of them: for as long as the clock does
      not come round, a known owner is good for thirty seconds and a failed lookup for five. */
  lemma OwnerStays(owner: Owner, since: nat, now: nat)
    requires since <= now < since + 0x1_0000_0000
    ensures OwnerFresh(Stored(Wrap(since), owner), Wrap(now)) <==> now - since < if owner.name != "" then 30000 else 5000
  {
    Elapsed(since, now);
  }

  /** A path that was found is good for ever, a failed lookup for five seconds. */
  lemma PathStays(path: Path, since: nat, now: nat)
    requires since <= now < since + 0x1_0000_0000
    ensures PathFresh(Stored(Wrap(since), path), Wrap(now)) <==> path.path.Some? || now - since < 5000
  {
    Elapsed(since, now);
  }

  method OwnerLookup(c: Cache<Owner>, key: Key, now: u32) returns (hit: Option<Owner>)
    requires c.Valid()
    modifies c.entries
    ensures c.Valid()
    ensures hit.Some? ==> key in c.stored && hit.value == c.stored[key].value && OwnerFresh(c.stored[key], now)
    ensures Holds(old(c.entries[..]), key) && hit.None? ==> key in c.stored && !OwnerFresh(c.stored[key], now)
  {
    var e := c.Find(key, now);
    if e.Some? && OwnerFresh(Stored(e.value.checkedAt, e.value.value), now) { return Some(e.value.value); }
    return None;
  }

  method PathLookup(c: Cache<Path>, key: Key, now: u32) returns (hit: Option<Path>)
    requires c.Valid()
    modifies c.entries
    ensures c.Valid()
    ensures hit.Some? ==> key in c.stored && hit.value == c.stored[key].value && PathFresh(c.stored[key], now)
    ensures Holds(old(c.entries[..]), key) && hit.None? ==> key in c.stored && !PathFresh(c.stored[key], now)
  {
    var e := c.Find(key, now);
    if e.Some? && PathFresh(Stored(e.value.checkedAt, e.value.value), now) { return Some(e.value.value); }
    return None;
  }

  /** Names are kept in 192 bytes with a terminator. */
  function Clipped(name: string): (r: string)
    ensures |r| <= 191 && r <= name
  {
    if |name| <= 191 then name else name[..191]
  }

  /** The owner of a process: remembered, or asked for and remembered, and always one that was read for this
      process number and this start time. Without a start time nothing is remembered. */
  method CachedOwner(c: Cache<Owner>, key: Key, hasTimes: bool, now: u32, asked: string) returns (owner: string)
    requires c.Valid()
    modifies c`stored, c.entries
    ensures c.Valid()
    ensures !hasTimes ==> owner == asked && c.stored == old(c.stored)
    ensures hasTimes ==> key in c.stored && owner == c.stored[key].value.name && OwnerFresh(c.stored[key], now)
    ensures hasTimes ==> c.stored == old(c.stored) || c.stored == old(c.stored)[key := Stored(now, Owner(Clipped(asked), false))]
  {
    if !hasTimes { return asked; }
    var hit := OwnerLookup(c, key, now);
    if hit.Some? { return hit.value.name; }
    var _ := c.Store(key, now, Owner(Clipped(asked), false));
    return Clipped(asked);
  }

  /** Access was denied only matters when no path was found. */
  function Remembered(asked: Path): Path {
    Path(asked.path, asked.path.None? && asked.denied)
  }

  method CachedPath(c: Cache<Path>, key: Key, hasTimes: bool, now: u32, asked: Path) returns (path: Option<string>)
    requires c.Valid()
    modifies c`stored, c.entries
    ensures c.Valid()
    ensures !hasTimes ==> path == asked.path && c.stored == old(c.stored)
    ensures hasTimes ==> key in c.stored && path == c.stored[key].value.path && PathFresh(c.stored[key], now)
    ensures hasTimes ==> c.stored == old(c.stored) || c.stored == old(c.stored)[key := Stored(now, Remembered(asked))]
  {
    if !hasTimes { return asked.path; }
    var hit := PathLookup(c, key, now);
    if hit.Some? { return hit.value.path; }
    var _ := c.Store(key, now, Remembered(asked));
    return asked.path;
  }

  method DenyOwner(c: Cache<Owner>, key: Key, now: u32)
    requires c.Valid()
    modifies c`stored, c.entries
    ensures c.Valid() && c.stored == old(c.stored)[key := Stored(now, Owner("", true))]
  {
    var _ := c.Store(key, now, Owner("", true));
  }

  method DenyPath(c: Cache<Path>, key: Key, now: u32)
    requires c.Valid()
    modifies c`stored, c.entries
    ensures c.Valid() && c.stored == old(c.stored)[key := Stored(now, Path(None, true))]
  {
    var _ := c.Store(key, now, Path(None, true));
  }
}

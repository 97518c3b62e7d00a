/** Identity slots of the disk collector: every reported disk gets a generation, which stays with its
    identity for as long as the disk keeps being found. */
module DiskGenerations {
  const MAX_DISKS: nat := 256
  const MAX_INTERFACES: nat := 1024

  datatype Key = Key(instance: string, hasGuid: bool, guid: seq<int>, vendor: string, model: string,
    firmware: string, serial: string)
  datatype Row = Row(number: nat, key: Key, ambiguous: bool)
  datatype Entry = Entry(key: Key, generation: nat, number: nat, present: bool)
  datatype Reading = Skipped | Failed | Found(number: nat, key: Key, partial: bool)
  datatype Report = Report(generation: nat, key: Key)

  predicate SameKey(a: Key, b: Key) {
    a.instance == b.instance && a.hasGuid == b.hasGuid && (!a.hasGuid || a.guid == b.guid)
    && a.vendor == b.vendor && a.model == b.model && a.firmware == b.firmware && a.serial == b.serial
  }

  /** Signatures are the same if they are equal, but for an identifier neither disk has. */
  lemma SignatureMeans(a: Key, b: Key)
    ensures SameKey(a, b) <==> a == b || (!a.hasGuid && !b.hasGuid && a.(guid := b.guid) == b)
  {}

  predicate Identified(key: Key) {
    key.instance != "" || key.hasGuid || key.serial != ""
  }

  /** The cached entry a row may take over: still present, same signature, and the same number when the
      signature identifies nothing. */
  predicate Matches(e: Entry, row: Row) {
    e.present && SameKey(e.key, row.key) && (Identified(row.key) || e.number == row.number)
  }

  // ---- Listing the disks -----------------------------------------------------------------------------------

  function Capacity(visible: nat): nat {
    if visible < MAX_DISKS then visible else MAX_DISKS
  }

  /** The readings that become rows: the first `capacity` of those that found a disk. */
  function FoundDisks(readings: seq<Reading>, capacity: nat): (ds: seq<Reading>)
    ensures |ds| <= capacity && forall d :: d in ds ==> d.Found?
  {
    if readings == [] then []
    else
      var n := |readings| - 1;
      var earlier := FoundDisks(readings[..n], capacity);
      if |earlier| < capacity && readings[n].Found? then earlier + [readings[n]] else earlier
  }

  /** Interface k comes when the rows are full, and is not read. */
  predicate TooLate(readings: seq<Reading>, capacity: nat, k: nat)
    requires k < |readings|
  {
    |FoundDisks(readings[..k], capacity)| >= capacity
  }

  predicate Lossy(readings: seq<Reading>, capacity: nat, k: nat)
    requires k < |readings|
  {
    !TooLate(readings, capacity, k) && (readings[k].Failed? || (readings[k].Found? && readings[k].partial))
  }

  predicate AnyTooLate(readings: seq<Reading>, capacity: nat, n: nat) {
    exists k :: 0 <= k < n && k < |readings| && TooLate(readings, capacity, k)
  }

  predicate AnyLossy(readings: seq<Reading>, capacity: nat, n: nat) {
    exists k :: 0 <= k < n && k < |readings| && Lossy(readings, capacity, k)
  }

  lemma AnyMore(readings: seq<Reading>, capacity: nat, n: nat)
    requires n < |readings|
    ensures AnyTooLate(readings, capacity, n + 1) <==> AnyTooLate(readings, capacity, n) || TooLate(readings, capacity, n)
    ensures AnyLossy(readings, capacity, n + 1) <==> AnyLossy(readings, capacity, n) || Lossy(readings, capacity, n)
  {}

  predicate SharesNumber(ds: seq<Reading>, i: nat)
    requires i < |ds| && forall d :: d in ds ==> d.Found?
  {
    exists j :: 0 <= j < |ds| && j != i && ds[j].number == ds[i].number
  }

  /** One row for every disk found; a number that occurs twice makes its rows ambiguous. */
  predicate RowsOf(rows: seq<Row>, ds: seq<Reading>)
    requires forall d :: d in ds ==> d.Found?
  {
    |rows| == |ds| && forall i :: 0 <= i < |rows| ==> rows[i] == Row(ds[i].number, ds[i].key, SharesNumber(ds, i))
  }

  predicate Numbered(rows: seq<Row>, n: nat, number: nat) {
    exists k :: 0 <= k < n && k < |rows| && rows[k].number == number
  }

  predicate AnyAmbiguous(rows: seq<Row>) {
    exists i :: 0 <= i < |rows| && rows[i].ambiguous
  }

  /** The first n rows with that number are marked. */
  predicate Marked(rows: seq<Row>, before: seq<Row>, n: nat, number: nat) {
    |rows| == |before| && forall k :: 0 <= k < |rows| ==>
      rows[k] == before[k].(ambiguous := before[k].ambiguous || (k < n && before[k].number == number))
  }

  lemma RowsMore(before: seq<Row>, rows: seq<Row>, ds: seq<Reading>, d: Reading)
    requires d.Found? && (forall e :: e in ds ==> e.Found?) && RowsOf(before, ds)
    requires Marked(rows, before, |before|, d.number)
    ensures RowsOf(rows + [Row(d.number, d.key, Numbered(before, |before|, d.number))], ds + [d])
  {
    var more := ds + [d];
    assert more[|ds|] == d && forall i :: 0 <= i < |ds| ==> more[i] == ds[i];
    forall i | 0 <= i < |ds| ensures SharesNumber(more, i) <==> SharesNumber(ds, i) || ds[i].number == d.number {
      if SharesNumber(ds, i) {
        var j :| 0 <= j < |ds| && j != i && ds[j].number == ds[i].number;
        assert more[j].number == more[i].number;
      }
    }
    if Numbered(before, |before|, d.number) {
      var k :| 0 <= k < |before| && before[k].number == d.number;
      assert more[k].number == d.number;
    }
  }

  lemma AmbiguousMore(before: seq<Row>, rows: seq<Row>, row: Row)
    requires Marked(rows, before, |before|, row.number) && row.ambiguous == Numbered(before, |before|, row.number)
    ensures AnyAmbiguous(rows + [row]) <==> AnyAmbiguous(before) || row.ambiguous
  {
    var after := rows + [row];
    assert after[|rows|] == row && forall i :: 0 <= i < |rows| ==> after[i] == rows[i];
    if AnyAmbiguous(before) {
      var i :| 0 <= i < |before| && before[i].ambiguous;
      assert after[i].ambiguous;
    }
  }

  lemma NothingYet(readings: seq<Reading>, capacity: nat)
    ensures !AnyTooLate(readings, capacity, 0) && !AnyLossy(readings, capacity, 0) && !AnyAmbiguous([]) && RowsOf([], [])
  {}

  /** Marks the rows that have the number already. */
  method MarkNumber(before: seq<Row>, number: nat) returns (rows: seq<Row>, twice: bool)
    ensures Marked(rows, before, |before|, number) && (twice <==> Numbered(before, |before|, number))
  {
    rows, twice := before, false;
    for i := 0 to |rows|
      invariant Marked(rows, before, i, number) && (twice <==> Numbered(before, i, number))
    {
      if rows[i].number == number {
        rows, twice := rows[i := rows[i].(ambiguous := true)], true;
      }
    }
  }

  /** Reads what the enumeration of interfaces delivers, and marks disks that share a number. */
  method Gather(visible: nat, readings: seq<Reading>, broken: bool)
    returns (rows: seq<Row>, partial: bool, truncated: bool)
    requires |readings| <= MAX_INTERFACES
    ensures |rows| <= MAX_DISKS && RowsOf(rows, FoundDisks(readings, Capacity(visible)))
    ensures truncated <==> |readings| == MAX_INTERFACES || AnyTooLate(readings, Capacity(visible), |readings|)
    ensures partial <==> broken || AnyAmbiguous(rows) || AnyLossy(readings, Capacity(visible), |readings|)
  {
    hide AnyAmbiguous, AnyTooLate, AnyLossy, RowsOf, Marked, Numbered;
    var capacity := Capacity(visible);
    NothingYet(readings, capacity);
    rows, partial, truncated := [], false, false;
    for index := 0 to |readings|
      invariant |rows| == |FoundDisks(readings[..index], capacity)| && RowsOf(rows, FoundDisks(readings[..index], capacity))
      invariant truncated <==> index == MAX_INTERFACES || AnyTooLate(readings, capacity, index)
      invariant partial <==> AnyAmbiguous(rows) || AnyLossy(readings, capacity, index)
    {
      AnyMore(readings, capacity, index);
      var reading := readings[index];
      assert readings[..index + 1][..index] == readings[..index];
      if index + 1 == MAX_INTERFACES { truncated := true; }
      if |rows| >= capacity {
        truncated := true;
      } else if reading.Failed? {
        partial := true;
      } else if reading.Found? {
        ghost var before := rows;
        var twice;
        rows, twice := MarkNumber(rows, reading.number);
        if twice { partial := true; }
        if reading.partial { partial := true; }
        RowsMore(before, rows, FoundDisks(readings[..index], capacity), reading);
        AmbiguousMore(before, rows, Row(reading.number, reading.key, twice));
        rows := rows + [Row(reading.number, reading.key, twice)];
      }
    }
    assert readings[..|readings|] == readings;
    if broken { partial := true; }
  }

  // ---- The cache invariant ---------------------------------------------------------------------------

  ghost predicate EntryInv(e: Entry, keys: seq<Key>) {
    e.generation <= |keys| && (e.generation > 0 ==> keys[e.generation - 1] == e.key) && (e.present ==> e.generation > 0)
  }

  /** `keys[g - 1]` is the signature generation g was issued for. */
  ghost predicate Inv(cache: seq<Entry>, next: nat, keys: seq<Key>) {
    |cache| == MAX_DISKS && next == |keys|
    && (forall i :: 0 <= i < MAX_DISKS ==> EntryInv(cache[i], keys))
    && (forall i, j :: 0 <= i < j < MAX_DISKS && cache[i].generation > 0 ==> cache[i].generation != cache[j].generation)
  }

  lemma InvReplace(cache: seq<Entry>, next: nat, keys: seq<Key>, i: nat, key: Key, number: nat)
    requires Inv(cache, next, keys) && i < MAX_DISKS
    ensures Inv(cache[i := Entry(key, next + 1, number, true)], next + 1, keys + [key])
  {
    var t := cache[i := Entry(key, next + 1, number, true)];
    forall k | 0 <= k < MAX_DISKS ensures EntryInv(t[k], keys + [key]) {
      assert EntryInv(cache[k], keys);
    }
    forall k, l | 0 <= k < l < MAX_DISKS && t[k].generation > 0 ensures t[k].generation != t[l].generation {
      assert EntryInv(cache[k], keys) && EntryInv(cache[l], keys);
    }
  }

  lemma InvAbsent(cache: seq<Entry>, next: nat, keys: seq<Key>, i: nat)
    requires Inv(cache, next, keys) && i < MAX_DISKS
    ensures Inv(cache[i := cache[i].(present := false)], next, keys)
  {
    var t := cache[i := cache[i].(present := false)];
    forall k | 0 <= k < MAX_DISKS ensures EntryInv(t[k], keys) {
      assert EntryInv(cache[k], keys);
    }
  }

  /** What a report says about the issued generations. */
  ghost predicate Reported(r: Report, keys: seq<Key>) {
    0 < r.generation <= |keys| && SameKey(keys[r.generation - 1], r.key)
  }

  /** Two reports with one generation are about one signature, however far apart they were made. */
  lemma SameGenerationSameKey(a: Report, b: Report, earlier: seq<Key>, later: seq<Key>)
    requires Reported(a, earlier) && Reported(b, later) && earlier <= later && a.generation == b.generation
    ensures SameKey(a.key, b.key)
  {
    assert later[a.generation - 1] == earlier[a.generation - 1];
  }

  // ---- A free slot always exists ------------------------------------------------------------------------

  ghost function Image(slots: seq<int>): set<int> {
    set k | k in slots
  }

  lemma {:induction false} ImageSize(slots: seq<int>)
    ensures |Image(slots)| <= |slots|
    decreases |slots|
  {
    if slots != [] {
      ImageSize(slots[1..]);
      assert Image(slots) == Image(slots[1..]) + {slots[0]};
    } else {
      assert Image(slots) == {};
    }
  }

  ghost function Range(n: nat): (s: set<int>)
    ensures |s| == n && forall k :: k in s <==> 0 <= k < n
  {
    if n == 0 then {} else Range(n - 1) + {n - 1}
  }

  lemma Subset<T>(a: set<T>, b: set<T>)
    requires a <= b
    ensures |a| <= |b|
  {
    assert b == a + (b - a);
  }

  lemma FreeSlot(slots: seq<int>, r: nat)
    requires |slots| <= MAX_DISKS && r < |slots| && slots[r] == -1
    ensures exists i :: 0 <= i < MAX_DISKS && i !in slots
  {
    if forall i :: 0 <= i < MAX_DISKS ==> i in slots {
      Subset(Range(MAX_DISKS) + {-1}, Image(slots));
      ImageSize(slots);
    }
  }

  // ---- The two passes ------------------------------------------------------------------------------------

  predicate Injective(slots: seq<int>) {
    forall q, r :: 0 <= q < r < |slots| && slots[q] >= 0 ==> slots[q] != slots[r]
  }

  /** Every entry row r matches has gone to an earlier row. */
  ghost predicate Exhausted(cache: seq<Entry>, rows: seq<Row>, slots: seq<int>, r: nat)
    requires r < |rows| == |slots|
  {
    forall i :: 0 <= i < |cache| && Matches(cache[i], rows[r]) ==> i in slots[..r]
  }

  /** The slots the first n rows kept: distinct, matching, and none left that a row could have had. */
  ghost predicate KeptSlots(cache: seq<Entry>, rows: seq<Row>, slots: seq<int>, n: nat)
    requires |cache| == MAX_DISKS
  {
    |slots| == |rows| && Injective(slots)
    && (forall r :: 0 <= r < |rows| ==> -1 <= slots[r] < MAX_DISKS)
    && (forall r :: n <= r < |rows| ==> slots[r] == -1)
    && (forall r :: 0 <= r < |rows| && slots[r] >= 0 ==> !rows[r].ambiguous && Matches(cache[slots[r]], rows[r]))
    && (forall r :: 0 <= r < n && r < |rows| && !rows[r].ambiguous && slots[r] == -1 ==> Exhausted(cache, rows, slots, r))
  }

  ghost predicate SeenIs(seen: seq<bool>, slots: seq<int>) {
    |seen| == MAX_DISKS && forall i :: 0 <= i < MAX_DISKS ==> (seen[i] <==> i in slots)
  }

  predicate Issued(e: Entry, row: Row, base: nat) {
    e.key == row.key && e.number == row.number && e.generation > base && e.present
  }

  /** After the second pass: the rows that kept a slot still have it untouched, and every other row has a
      fresh generation of its own. */
  ghost predicate Placed(before: seq<Entry>, now: seq<Entry>, kept: seq<int>, slots: seq<int>, rows: seq<Row>,
      n: nat, base: nat)
    requires |before| == |now| == MAX_DISKS
  {
    |slots| == |kept| == |rows| && Injective(slots)
    && (forall r :: 0 <= r < |rows| ==> -1 <= slots[r] < MAX_DISKS && (kept[r] >= 0 ==> slots[r] == kept[r]))
    && (forall r :: 0 <= r < |rows| ==> -1 <= kept[r] && (kept[r] >= 0 ==> now[kept[r]] == before[kept[r]]))
    && (forall r :: 0 <= r < |rows| && (r >= n || rows[r].ambiguous) ==> slots[r] == kept[r])
    && (forall r :: 0 <= r < n && r < |rows| && !rows[r].ambiguous ==> slots[r] >= 0)
    && (forall r :: 0 <= r < n && r < |rows| && !rows[r].ambiguous && kept[r] == -1 ==> Issued(now[slots[r]], rows[r], base))
    && (forall i :: 0 <= i < MAX_DISKS && i !in slots ==> now[i] == before[i])
  }

  lemma PlacedNone(before: seq<Entry>, rows: seq<Row>, kept: seq<int>, base: nat)
    requires |before| == MAX_DISKS && KeptSlots(before, rows, kept, |rows|)
    ensures Placed(before, before, kept, kept, rows, 0, base)
  {}

  lemma PlacedMore(before: seq<Entry>, now: seq<Entry>, kept: seq<int>, slots: seq<int>, rows: seq<Row>,
      r: nat, base: nat, slot: nat, e: Entry)
    requires |before| == |now| == MAX_DISKS && Placed(before, now, kept, slots, rows, r, base)
    requires r < |rows| && !rows[r].ambiguous && slots[r] == -1 && slot < MAX_DISKS && slot !in slots
    requires Issued(e, rows[r], base)
    ensures Placed(before, now[slot := e], kept, slots[r := slot], rows, r + 1, base)
  {
    var (next, chosen) := (now[slot := e], slots[r := slot]);
    forall q | 0 <= q < |rows| && kept[q] >= 0 ensures next[kept[q]] == before[kept[q]] {
      assert slots[q] in slots;
    }
    forall q | 0 <= q < r + 1 && !rows[q].ambiguous && kept[q] == -1 ensures Issued(next[chosen[q]], rows[q], base) {
      if q < r {
        assert slots[q] in slots;
      }
    }
    assert chosen[r] == slot;
    forall q | 0 <= q < |slots| && slots[q] >= 0 ensures slots[q] in chosen {
      assert chosen[q] == slots[q];
    }
  }

  lemma PlacedSkip(before: seq<Entry>, now: seq<Entry>, kept: seq<int>, slots: seq<int>, rows: seq<Row>,
      r: nat, base: nat)
    requires |before| == |now| == MAX_DISKS && Placed(before, now, kept, slots, rows, r, base)
    requires r < |rows| && (rows[r].ambiguous || slots[r] >= 0)
    ensures Placed(before, now, kept, slots, rows, r + 1, base)
  {}

  lemma SeenMore(seen: seq<bool>, slots: seq<int>, r: nat, slot: nat)
    requires SeenIs(seen, slots) && r < |slots| && slots[r] == -1 && slot < MAX_DISKS
    ensures SeenIs(seen[slot := true], slots[r := slot])
  {
    var t := slots[r := slot];
    assert t[r] == slot;
    forall k | 0 <= k < MAX_DISKS && k in slots ensures k in t {
      var q :| 0 <= q < |slots| && slots[q] == k;
      assert t[q] == k;
    }
  }

  lemma KeptMore(cache: seq<Entry>, rows: seq<Row>, slots: seq<int>, r: nat, i: nat)
    requires |cache| == MAX_DISKS && KeptSlots(cache, rows, slots, r) && r < |rows| && !rows[r].ambiguous
    requires i < MAX_DISKS && i !in slots && Matches(cache[i], rows[r])
    ensures KeptSlots(cache, rows, slots[r := i], r + 1)
    ensures forall k :: 0 <= k < MAX_DISKS ==> (k in slots[r := i] <==> k == i || k in slots)
  {
    var t := slots[r := i];
    forall q | 0 <= q < r + 1 && !rows[q].ambiguous && t[q] == -1 ensures Exhausted(cache, rows, t, q) {
      assert t[..q] == slots[..q];
      assert Exhausted(cache, rows, slots, q);
    }
    assert t[r] == i;
    forall k | 0 <= k < MAX_DISKS && k in slots ensures k in t {
      var q :| 0 <= q < |slots| && slots[q] == k;
      assert t[q] == k;
    }
  }

  lemma TakenBefore(cache: seq<Entry>, rows: seq<Row>, slots: seq<int>, r: nat, i: nat)
    requires |cache| == MAX_DISKS && KeptSlots(cache, rows, slots, r) && r < |rows| && i < MAX_DISKS
    ensures i in slots ==> i in slots[..r]
  {
    if i in slots {
      var q :| 0 <= q < |slots| && slots[q] == i;
      assert q < r && slots[..r][q] == i;
    }
  }

  // ---- Which rows keep their generation ---------------------------------------------------------------------

  /** The cached entries a row could take over. */
  ghost function Candidates(cache: seq<Entry>, row: Row): set<nat> {
    set i | 0 <= i < |cache| && Matches(cache[i], row)
  }

  /** Two unambiguous rows that want the same entries. */
  predicate Rival(a: Row, b: Row) {
    !a.ambiguous && SameKey(a.key, b.key) && (Identified(b.key) || a.number == b.number)
  }

  /** The earlier rows that want what row r wants. */
  ghost function Rivals(rows: seq<Row>, r: nat): set<nat>
    requires r < |rows|
  {
    set q | 0 <= q < r && Rival(rows[q], rows[r])
  }

  /** The entries a set of rows took. */
  ghost function Taken(slots: seq<int>, who: set<nat>): set<int>
    requires forall q :: q in who ==> q < |slots|
  {
    set q | q in who :: slots[q]
  }

  lemma {:induction false} TakenSize(slots: seq<int>, who: set<nat>)
    requires Injective(slots) && forall q :: q in who ==> q < |slots| && slots[q] >= 0
    ensures |Taken(slots, who)| == |who|
    decreases |who|
  {
    if who == {} {
      assert Taken(slots, who) == {};
    } else {
      var q :| q in who;
      TakenSize(slots, who - {q});
      assert Taken(slots, who) == Taken(slots, who - {q}) + {slots[q]};
      assert slots[q] !in Taken(slots, who - {q});
    }
  }

  /** If row r found an entry, every earlier rival found one too. */
  lemma RivalsServed(cache: seq<Entry>, rows: seq<Row>, slots: seq<int>, q: nat, r: nat)
    requires |cache| == MAX_DISKS && KeptSlots(cache, rows, slots, |rows|)
    requires q < r < |rows| && slots[r] >= 0 && Rival(rows[q], rows[r])
    ensures slots[q] >= 0 && Matches(cache[slots[q]], rows[r])
  {
    assert Matches(cache[slots[r]], rows[q]);
    assert Exhausted(cache, rows, slots, q) ==> slots[r] in slots[..q];
  }

  /** If row r found none, each entry it matches went to an earlier rival. */
  lemma CandidateTaken(cache: seq<Entry>, rows: seq<Row>, slots: seq<int>, i: nat, r: nat)
    requires |cache| == MAX_DISKS && KeptSlots(cache, rows, slots, |rows|)
    requires r < |rows| && !rows[r].ambiguous && slots[r] == -1 && i < MAX_DISKS && Matches(cache[i], rows[r])
    ensures exists q :: 0 <= q < r && slots[q] == i && Rival(rows[q], rows[r])
  {
    assert Exhausted(cache, rows, slots, r);
    var q :| 0 <= q < r && slots[..r][q] == i;
    assert slots[q] == i && Matches(cache[slots[q]], rows[q]);
  }

  lemma KeptShape(cache: seq<Entry>, rows: seq<Row>, slots: seq<int>, r: nat)
    requires |cache| == MAX_DISKS && KeptSlots(cache, rows, slots, |rows|) && r < |rows|
    ensures |slots| == |rows| && Injective(slots) && -1 <= slots[r] < MAX_DISKS
    ensures slots[r] >= 0 ==> Matches(cache[slots[r]], rows[r])
  {}

  /** In the first pass an unambiguous row finds an entry exactly when its candidates outnumber its rivals:
      every rival takes one of the same candidates, and nobody else does. */
  lemma KeptExactly(cache: seq<Entry>, rows: seq<Row>, slots: seq<int>, r: nat)
    requires |cache| == MAX_DISKS && KeptSlots(cache, rows, slots, |rows|) && r < |rows| && !rows[r].ambiguous
    ensures slots[r] >= 0 <==> |Candidates(cache, rows[r])| > |Rivals(rows, r)|
  {
    hide KeptSlots, Matches, Rival;
    var (wanted, rivals) := (Candidates(cache, rows[r]), Rivals(rows, r));
    KeptShape(cache, rows, slots, r);
    if slots[r] >= 0 {
      forall q | q in rivals ensures slots[q] >= 0 && slots[q] in wanted {
        RivalsServed(cache, rows, slots, q, r);
        KeptShape(cache, rows, slots, q);
      }
      TakenSize(slots, rivals + {r});
      Subset(Taken(slots, rivals + {r}), wanted);
    } else {
      var takers := set q | q in rivals && slots[q] >= 0;
      TakenSize(slots, takers);
      forall i | i in wanted ensures i in Taken(slots, takers) {
        CandidateTaken(cache, rows, slots, i, r);
      }
      Subset(wanted, Taken(slots, takers));
      Subset(takers, rivals);
    }
  }

  /** The earlier rows with the same identified signature. */
  ghost function Twins(rows: seq<Row>, r: nat): set<nat>
    requires r < |rows|
  {
    set q | 0 <= q < r && !rows[q].ambiguous && Identified(rows[r].key) && SameKey(rows[q].key, rows[r].key)
  }

  /** Numbers are compared when disks are listed, so the only rivals of a listed disk are its twins. A disk
      that identifies nothing, or has no twin before it, keeps an entry exactly when one matches. */
  lemma WhoKeeps(cache: seq<Entry>, rows: seq<Row>, ds: seq<Reading>, r: nat)
    requires (forall d :: d in ds ==> d.Found?) && RowsOf(rows, ds) && r < |rows| && !rows[r].ambiguous
    ensures Rivals(rows, r) == Twins(rows, r)
    ensures !Identified(rows[r].key) ==> Twins(rows, r) == {}
    ensures Twins(rows, r) == {} ==>
      (|Candidates(cache, rows[r])| > |Rivals(rows, r)| <==> exists i :: 0 <= i < |cache| && Matches(cache[i], rows[r]))
  {
    forall q | 0 <= q < r && !rows[q].ambiguous ensures rows[q].number != rows[r].number {
      assert !SharesNumber(ds, q);
    }
    if i :| 0 <= i < |cache| && Matches(cache[i], rows[r]) {
      assert i in Candidates(cache, rows[r]);
    }
  }

  const TWIN: Key := Key("", false, [], "", "", "", "S")
  const BLANK: Entry := Entry(Key("", false, [], "", "", "", ""), 0, 0, false)
  const ONE_ENTRY: seq<Entry> := [Entry(TWIN, 1, 0, true)] + seq(MAX_DISKS - 1, _ => BLANK)
  const TWO_TWINS: seq<Row> := [Row(0, TWIN, false), Row(1, TWIN, false)]

  /** A remembered disk comes back twice, under two numbers: the second row matches a present entry and yet
      gets a new generation. */
  lemma TwinLoses()
    ensures Inv(ONE_ENTRY, 1, [TWIN]) && RowsOf(TWO_TWINS, [Found(0, TWIN, false), Found(1, TWIN, false)])
    ensures Matches(ONE_ENTRY[0], TWO_TWINS[1]) && |Candidates(ONE_ENTRY, TWO_TWINS[1])| <= |Rivals(TWO_TWINS, 1)|
  {
    assert forall i :: 1 <= i < |ONE_ENTRY| ==> !Matches(ONE_ENTRY[i], TWO_TWINS[1]);
    assert Candidates(ONE_ENTRY, TWO_TWINS[1]) == {0} && Rivals(TWO_TWINS, 1) == {0};
  }

  /** The row ends up under an entry that was there before, matched it, and was left as it was. */
  predicate Keeps(before: seq<Entry>, after: seq<Entry>, row: Row, slot: int) {
    0 <= slot < |before| == |after| && Matches(before[slot], row) && after[slot] == before[slot]
  }

  /** The second pass leaves a kept entry alone and gives every other row a generation that is new. */
  lemma KeptStays(before: seq<Entry>, now: seq<Entry>, kept: seq<int>, slots: seq<int>, rows: seq<Row>, r: nat,
      next: nat, keys: seq<Key>)
    requires |before| == |now| == MAX_DISKS && KeptSlots(before, rows, kept, |rows|) && Inv(before, next, keys)
    requires Placed(before, now, kept, slots, rows, |rows|, next) && r < |rows| && !rows[r].ambiguous
    ensures Keeps(before, now, rows[r], slots[r]) <==> kept[r] >= 0
    ensures kept[r] < 0 ==> slots[r] >= 0 && now[slots[r]].generation > next
  {
    if kept[r] < 0 {
      assert Issued(now[slots[r]], rows[r], next) && EntryInv(before[slots[r]], keys);
    }
  }

  /** An entry a row may be reported under: its own signature, and a generation that was issued. */
  predicate Backs(e: Entry, row: Row) {
    SameKey(e.key, row.key) && e.generation > 0
  }

  lemma PlacedBacks(before: seq<Entry>, now: seq<Entry>, kept: seq<int>, slots: seq<int>, rows: seq<Row>, base: nat)
    requires |before| == |now| == MAX_DISKS && KeptSlots(before, rows, kept, |rows|)
    requires Placed(before, now, kept, slots, rows, |rows|, base)
    requires forall i :: 0 <= i < MAX_DISKS && before[i].present ==> before[i].generation > 0
    ensures forall r :: 0 <= r < |rows| && slots[r] >= 0 ==> Backs(now[slots[r]], rows[r]) && Matches(now[slots[r]], rows[r])
    ensures forall r :: 0 <= r < |rows| ==> (slots[r] == -1 <==> rows[r].ambiguous)
  {
    forall r | 0 <= r < |rows|
      ensures slots[r] >= 0 ==> Backs(now[slots[r]], rows[r]) && Matches(now[slots[r]], rows[r])
      ensures slots[r] == -1 <==> rows[r].ambiguous
    {
      if rows[r].ambiguous {
        assert kept[r] == -1;
      } else if kept[r] >= 0 {
        assert Matches(before[kept[r]], rows[r]);
      }
    }
  }

  // ---- What is published ---------------------------------------------------------------------------------

  predicate Publishes(rows: seq<Row>, slots: seq<int>, cache: seq<Entry>, p: Report, r: nat)
    requires |slots| == |rows|
  {
    r < |rows| && 0 <= slots[r] < |cache| && p == Report(cache[slots[r]].generation, rows[r].key)
  }

  /** The unambiguous rows in order, each with its signature and its slot's generation. */
  predicate Published(rows: seq<Row>, slots: seq<int>, cache: seq<Entry>, reports: seq<Report>, origin: seq<nat>, n: nat) {
    |slots| == |rows| && |reports| == |origin|
    && (forall p :: 0 <= p < |origin| ==> origin[p] < n && Publishes(rows, slots, cache, reports[p], origin[p]))
    && (forall p, q :: 0 <= p < q < |origin| ==> origin[p] < origin[q])
    && (forall r :: 0 <= r < n && r < |rows| && !rows[r].ambiguous ==> r in origin)
  }

  lemma PublishedNone(rows: seq<Row>, slots: seq<int>, cache: seq<Entry>)
    requires |slots| == |rows|
    ensures Published(rows, slots, cache, [], [], 0)
  {}

  lemma PublishedMore(rows: seq<Row>, slots: seq<int>, cache: seq<Entry>, reports: seq<Report>, origin: seq<nat>, r: nat)
    requires |slots| == |rows| && r < |rows| && Published(rows, slots, cache, reports, origin, r)
    requires rows[r].ambiguous || 0 <= slots[r] < |cache|
    ensures rows[r].ambiguous ==> Published(rows, slots, cache, reports, origin, r + 1)
    ensures !rows[r].ambiguous ==>
      Published(rows, slots, cache, reports + [Report(cache[slots[r]].generation, rows[r].key)], origin + [r], r + 1)
  {}

  /** What happens to entries no row has does not matter. */
  lemma StillPublished(rows: seq<Row>, slots: seq<int>, cache: seq<Entry>, now: seq<Entry>, reports: seq<Report>,
      origin: seq<nat>)
    requires |slots| == |rows| && Published(rows, slots, cache, reports, origin, |rows|) && |now| == |cache|
    requires forall i :: 0 <= i < |cache| && i in slots ==> now[i] == cache[i]
    ensures Published(rows, slots, now, reports, origin, |rows|)
  {}

  /** Different slots hold different generations, so the published ones are distinct and backed. */
  lemma PublishedMeans(rows: seq<Row>, slots: seq<int>, cache: seq<Entry>, reports: seq<Report>, origin: seq<nat>,
      next: nat, keys: seq<Key>)
    requires Inv(cache, next, keys) && Published(rows, slots, cache, reports, origin, |rows|) && Injective(slots)
    requires forall r :: 0 <= r < |rows| && 0 <= slots[r] < |cache| ==> Backs(cache[slots[r]], rows[r])
    ensures forall p :: p in reports ==> Reported(p, keys)
    ensures forall p, q :: 0 <= p < q < |reports| ==> reports[p].generation != reports[q].generation
  {
    forall p | 0 <= p < |reports| ensures Reported(reports[p], keys) {
      assert EntryInv(cache[slots[origin[p]]], keys) && Backs(cache[slots[origin[p]]], rows[origin[p]]);
    }
    forall p, q | 0 <= p < q < |reports| ensures reports[p].generation != reports[q].generation {
      assert origin[p] < origin[q] && slots[origin[p]] != slots[origin[q]];
      assert Backs(cache[slots[origin[p]]], rows[origin[p]]) && Backs(cache[slots[origin[q]]], rows[origin[q]]);
    }
  }

  class Disks {
    const cache: array<Entry>
    var nextGeneration: nat
    ghost var keys: seq<Key>

    ghost predicate Valid()
      reads this, cache
    {
      cache.Length == MAX_DISKS && Inv(cache[..], nextGeneration, keys)
    }

    constructor ()
      ensures Valid() && fresh(cache) && keys == []
    {
      cache := new Entry[MAX_DISKS](_ => BLANK);
      nextGeneration, keys := 0, [];
    }

    /** First pass: every row takes the first matching entry nobody took before. */
    method Keep(rows: seq<Row>) returns (slots: seq<int>, seen: seq<bool>)
      requires Valid()
      ensures KeptSlots(cache[..], rows, slots, |rows|) && SeenIs(seen, slots)
    {
      slots, seen := seq(|rows|, _ => -1), seq(MAX_DISKS, _ => false);
      ghost var c := cache[..];
      for r := 0 to |rows|
        invariant KeptSlots(c, rows, slots, r) && SeenIs(seen, slots)
      {
        if !rows[r].ambiguous {
          ghost var (prior, first) := (slots, -1);
          for i := 0 to MAX_DISKS
            invariant slots == prior
            invariant forall k :: 0 <= k < i && Matches(c[k], rows[r]) ==> k in slots[..r]
            invariant KeptSlots(c, rows, slots, r) && SeenIs(seen, slots)
          {
            if cache[i].present && !seen[i] && SameKey(cache[i].key, rows[r].key)
              && (Identified(rows[r].key) || cache[i].number == rows[r].number) {
              slots, seen := slots[r := i], seen[i := true];
              KeptMore(c, rows, prior, r, i);
              break;
            }
            TakenBefore(c, rows, slots, r, i);
          }
        }
      }
    }

    /** The slot a row without one gets: an absent entry if there is one, else any entry not in use. */
    method Choose(seen: seq<bool>, ghost slots: seq<int>, ghost r: nat) returns (slot: nat)
      requires Valid() && SeenIs(seen, slots) && |slots| <= MAX_DISKS && r < |slots| && slots[r] == -1
      ensures slot < MAX_DISKS && slot !in slots
      ensures cache[slot].present ==> forall i :: 0 <= i < MAX_DISKS && i !in slots ==> cache[i].present
    {
      FreeSlot(slots, r);
      for i := 0 to MAX_DISKS
        invariant forall k :: 0 <= k < i && k !in slots ==> cache[k].present
      {
        if !seen[i] && !cache[i].present { return i; }
      }
      for i := 0 to MAX_DISKS
        invariant forall k :: 0 <= k < i ==> k in slots
      {
        if !seen[i] { return i; }
      }
      assert false;
    }

    /** Second pass: every row left over gets a slot nobody uses and a generation never used before. */
    method Place(rows: seq<Row>, kept: seq<int>, used: seq<bool>) returns (slots: seq<int>, seen: seq<bool>)
      requires Valid() && |rows| <= MAX_DISKS && KeptSlots(cache[..], rows, kept, |rows|) && SeenIs(used, kept)
      modifies this, cache
      ensures Valid() && old(keys) <= keys && SeenIs(seen, slots)
      ensures Placed(old(cache[..]), cache[..], kept, slots, rows, |rows|, old(nextGeneration))
    {
      hide Inv;
      slots, seen := kept, used;
      ghost var c := cache[..];
      PlacedNone(c, rows, kept, nextGeneration);
      for r := 0 to |rows|
        invariant Valid() && old(keys) <= keys && nextGeneration >= old(nextGeneration) && SeenIs(seen, slots)
        invariant Placed(c, cache[..], kept, slots, rows, r, old(nextGeneration))
      {
        if !rows[r].ambiguous && slots[r] < 0 {
          var slot := Choose(seen, slots, r);
          var e := Entry(rows[r].key, nextGeneration + 1, rows[r].number, true);
          InvReplace(cache[..], nextGeneration, keys, slot, rows[r].key, rows[r].number);
          PlacedMore(c, cache[..], kept, slots, rows, r, old(nextGeneration), slot, e);
          SeenMore(seen, slots, r, slot);
          ghost var after := cache[..][slot := e];
          slots, seen := slots[r := slot], seen[slot := true];
          cache[slot] := e;
          nextGeneration, keys := nextGeneration + 1, keys + [e.key];
          assert cache[..] == after;
        } else {
          PlacedSkip(c, cache[..], kept, slots, rows, r, old(nextGeneration));
        }
      }
    }

    /** The rows as published: row `origin[p]` is report p. */
    method Publish(rows: seq<Row>, slots: seq<int>) returns (reports: seq<Report>, ghost origin: seq<nat>)
      requires Valid() && |slots| == |rows| && Injective(slots)
      requires forall r :: 0 <= r < |rows| ==> -1 <= slots[r] < MAX_DISKS && (slots[r] == -1 <==> rows[r].ambiguous)
      requires forall r :: 0 <= r < |rows| && slots[r] >= 0 ==> Backs(cache[slots[r]], rows[r])
      ensures Published(rows, slots, cache[..], reports, origin, |rows|)
      ensures forall p :: p in reports ==> Reported(p, keys)
      ensures forall p, q :: 0 <= p < q < |reports| ==> reports[p].generation != reports[q].generation
    {
      hide Published, Inv, Backs;
      reports, origin := [], [];
      PublishedNone(rows, slots, cache[..]);
      for r := 0 to |rows|
        invariant Published(rows, slots, cache[..], reports, origin, r)
      {
        PublishedMore(rows, slots, cache[..], reports, origin, r);
        if !rows[r].ambiguous {
          reports, origin := reports + [Report(cache[slots[r]].generation, rows[r].key)], origin + [r];
        }
      }
      PublishedMeans(rows, slots, cache[..], reports, origin, nextGeneration, keys);
    }

    /** One collection. */
    method Collect(rows: seq<Row>, partial: bool, truncated: bool)
      returns (reports: seq<Report>, ghost slots: seq<int>, ghost origin: seq<nat>)
      requires Valid() && |rows| <= MAX_DISKS
      modifies this, cache
      ensures Valid() && old(keys) <= keys
      // Each unambiguous row is reported once, under the generation its slot holds afterwards.
      ensures |slots| == |rows| && Injective(slots) && forall r :: 0 <= r < |rows| ==> -1 <= slots[r] < MAX_DISKS
      ensures Published(rows, slots, cache[..], reports, origin, |rows|)
      ensures forall r :: 0 <= r < |rows| ==> if rows[r].ambiguous then slots[r] == -1
        else slots[r] >= 0 && Matches(cache[slots[r]], rows[r])
      ensures forall p :: p in reports ==> Reported(p, keys)
      ensures forall p, q :: 0 <= p < q < |reports| ==> reports[p].generation != reports[q].generation
      // A row keeps a matching entry, untouched, exactly when those outnumber its earlier rivals.
      ensures forall r | 0 <= r < |rows| && !rows[r].ambiguous ::
        Keeps(old(cache[..]), cache[..], rows[r], slots[r])
        <==> |Candidates(old(cache[..]), rows[r])| > |Rivals(rows, r)|
      // Any other row gets a generation that was never issued.
      ensures forall r | 0 <= r < |rows| && !rows[r].ambiguous && |Candidates(old(cache[..]), rows[r])| <= |Rivals(rows, r)| ::
        slots[r] >= 0 && cache[slots[r]].generation > |old(keys)|
      // Entries of disks not found are only marked absent, and only after a complete listing.
      ensures forall i :: 0 <= i < MAX_DISKS && i !in slots ==>
        cache[i] == old(cache[i]).(present := old(cache[i].present) && (partial || truncated))
    {
      hide Matches, Candidates, Rivals, Published, Backs, Reported;
      var kept, used := Keep(rows);
      ghost var before := cache[..];
      var chosen, seen := Place(rows, kept, used);
      slots := chosen;
      forall r | 0 <= r < |rows| && !rows[r].ambiguous
        ensures Keeps(before, cache[..], rows[r], slots[r]) <==> |Candidates(before, rows[r])| > |Rivals(rows, r)|
        ensures |Candidates(before, rows[r])| <= |Rivals(rows, r)| ==>
          slots[r] >= 0 && cache[slots[r]].generation > |old(keys)| {
        KeptExactly(before, rows, kept, r);
        KeptStays(before, cache[..], kept, slots, rows, r, old(nextGeneration), old(keys));
      }
      PlacedBacks(before, cache[..], kept, slots, rows, old(nextGeneration));
      reports, origin := Publish(rows, chosen);
      ghost var listed := cache[..];
      if !partial && !truncated {
        Forget(seen, slots);
        StillPublished(rows, slots, listed, cache[..], reports, origin);
      }
    }

    /** After a complete listing, whatever was not found is absent. */
    method Forget(seen: seq<bool>, ghost slots: seq<int>)
      requires Valid() && SeenIs(seen, slots)
      modifies cache
      ensures Valid()
      ensures forall i :: 0 <= i < MAX_DISKS ==>
        cache[i] == if i in slots then old(cache[i]) else old(cache[i]).(present := false)
    {
      for i := 0 to MAX_DISKS
        invariant Valid()
        invariant forall k :: 0 <= k < i ==> cache[k] == if k in slots then old(cache[k]) else old(cache[k]).(present := false)
        invariant forall k :: i <= k < MAX_DISKS ==> cache[k] == old(cache[k])
      {
        if !seen[i] {
          InvAbsent(cache[..], nextGeneration, keys, i);
          ghost var after := cache[..][i := cache[i].(present := false)];
          cache[i] := cache[i].(present := false);
          assert cache[..] == after;
        }
      }
    }
  }

  // ---- Whole sessions -------------------------------------------------------------------------------------

  /** What one collection finds: the interfaces counted first, then those read. */
  datatype Listing = Listing(visible: nat, readings: seq<Reading>, broken: bool)

  lemma StillReported(r: Report, earlier: seq<Key>, later: seq<Key>)
    requires Reported(r, earlier) && earlier <= later
    ensures Reported(r, later)
  {
    assert later[r.generation - 1] == earlier[r.generation - 1];
  }

  /** Any sequence of collections: reports that carry one generation, in whichever collections they were
      made, are about one signature; within a collection no two carry the same. */
  method Session(listings: seq<Listing>) returns (all: seq<seq<Report>>)
    requires forall l :: l in listings ==> |l.readings| <= MAX_INTERFACES
    ensures |all| == |listings|
    ensures forall k, p, q :: 0 <= k < |all| && 0 <= p < q < |all[k]| ==> all[k][p].generation != all[k][q].generation
    ensures forall x, y, a, b :: x in all && y in all && a in x && b in y && a.generation == b.generation ==>
      SameKey(a.key, b.key)
  {
    var disks := new Disks();
    all := [];
    for k := 0 to |listings|
      invariant disks.Valid() && |all| == k && fresh(disks) && fresh(disks.cache)
      invariant forall x, a :: x in all && a in x ==> Reported(a, disks.keys)
      invariant forall i, p, q :: 0 <= i < |all| && 0 <= p < q < |all[i]| ==> all[i][p].generation != all[i][q].generation
    {
      assert listings[k] in listings;
      ghost var earlier := disks.keys;
      var rows, partial, truncated := Gather(listings[k].visible, listings[k].readings, listings[k].broken);
      var reports, _, _ := disks.Collect(rows, partial, truncated);
      forall x, a | x in all && a in x ensures Reported(a, disks.keys) {
        StillReported(a, earlier, disks.keys);
      }
      all := all + [reports];
    }
    forall x, y, a, b | x in all && y in all && a in x && b in y && a.generation == b.generation
      ensures SameKey(a.key, b.key) {
      SameGenerationSameKey(a, b, disks.keys, disks.keys);
    }
  }

  /** Two rows are about the same disk as far as can be told: one signature, but for an identifier neither has, and one
      number unless the signature names an instance, an identifier or a serial. */
  predicate SameDisk(a: Row, b: Row) {
    !a.ambiguous && !b.ambiguous
    && (a.key == b.key || (!a.key.hasGuid && !b.key.hasGuid && a.key.(guid := b.key.guid) == b.key))
    && (a.number == b.number || b.key.instance != "" || b.key.hasGuid || b.key.serial != "")
  }

  /** Row r is about the disk, and no other row is. */
  predicate OnlyRow(rows: seq<Row>, r: nat, disk: Row) {
    r < |rows| && SameDisk(rows[r], disk) && forall q :: 0 <= q < |rows| && q != r ==> !SameDisk(rows[q], disk)
  }

  lemma OneCandidate(cache: seq<Entry>, slots: seq<int>, rows: seq<Row>, r: nat, disk: Row)
    requires OnlyRow(rows, r, disk) && |slots| == |rows| && !disk.ambiguous
    requires forall q :: 0 <= q < |rows| ==> if rows[q].ambiguous then slots[q] == -1
      else 0 <= slots[q] < |cache| && Matches(cache[slots[q]], rows[q])
    requires forall i :: 0 <= i < |cache| && i !in slots ==> !cache[i].present
    ensures Candidates(cache, disk) == {slots[r]}
  {
    SignatureMeans(rows[r].key, disk.key);
    forall i | 0 <= i < |cache| && Matches(cache[i], disk) ensures i == slots[r] {
      var q :| 0 <= q < |slots| && slots[q] == i;
      SignatureMeans(rows[q].key, disk.key);
    }
  }

  lemma NoRivals(rows: seq<Row>, r: nat)
    requires r < |rows| && OnlyRow(rows, r, rows[r])
    ensures Rivals(rows, r) == {}
  {
    forall q: nat ensures q !in Rivals(rows, r) {
      if q < r { SignatureMeans(rows[q].key, rows[r].key); }
    }
  }

  lemma ReportOf(rows: seq<Row>, slots: seq<int>, cache: seq<Entry>, reports: seq<Report>, origin: seq<nat>, r: nat)
    requires |slots| == |rows| && Published(rows, slots, cache, reports, origin, |rows|)
    requires r < |rows| && !rows[r].ambiguous
    ensures 0 <= slots[r] < |cache| && Report(cache[slots[r]].generation, rows[r].key) in reports
  {
    assert r in origin;
    var p :| 0 <= p < |origin| && origin[p] == r;
    assert Publishes(rows, slots, cache, reports[p], r);
    assert reports[p] in reports;
  }

  lemma OnlyUnambiguous(rows: seq<Row>, r: nat, disk: Row)
    requires OnlyRow(rows, r, disk)
    ensures r < |rows| && !rows[r].ambiguous && !disk.ambiguous
  {}

  ghost predicate OneGeneration(before: seq<Report>, a: Key, after: seq<Report>, b: Key) {
    exists g :: Report(g, a) in before && Report(g, b) in after
  }

  lemma StaysOne(cache: seq<Entry>, now: seq<Entry>, first: seq<Row>, slots: seq<int>, second: seq<Row>, slots': seq<int>,
      r: nat, s: nat)
    requires s < |second| && OnlyRow(first, r, second[s]) && OnlyRow(second, s, second[s])
    requires |slots| == |first| && |slots'| == |second| && |now| == |cache|
    requires forall q :: 0 <= q < |first| ==> if first[q].ambiguous then slots[q] == -1
      else 0 <= slots[q] < |cache| && Matches(cache[slots[q]], first[q])
    requires forall i :: 0 <= i < |cache| && i !in slots ==> !cache[i].present
    requires Keeps(cache, now, second[s], slots'[s]) <==> |Candidates(cache, second[s])| > |Rivals(second, s)|
    ensures slots'[s] == slots[r] && 0 <= slots[r] < |cache| && now[slots[r]] == cache[slots[r]]
  {
    hide Matches, SameDisk;
    OnlyUnambiguous(first, r, second[s]);
    OneCandidate(cache, slots, first, r, second[s]);
    NoRivals(second, s);
    assert slots'[s] in Candidates(cache, second[s]);
  }

  /** A disk that two collections find, each in one row only, is reported under one generation, if the first listing was
      complete. */
  method FoundAgain(disks: Disks, first: seq<Row>, second: seq<Row>, partial: bool, truncated: bool)
    returns (before: seq<Report>, after: seq<Report>)
    requires disks.Valid() && |first| <= MAX_DISKS && |second| <= MAX_DISKS
    modifies disks, disks.cache
    ensures disks.Valid()
    ensures forall r: nat, s: nat | s < |second| && OnlyRow(first, r, second[s]) && OnlyRow(second, s, second[s]) ::
      OneGeneration(before, first[r].key, after, second[s].key)
  {
    hide Published, Inv, Matches, SameDisk, Candidates, Rivals, Keeps;
    ghost var slots, origin;
    before, slots, origin := disks.Collect(first, false, false);
    ghost var cache := disks.cache[..];
    ghost var slots', origin';
    after, slots', origin' := disks.Collect(second, partial, truncated);
    ghost var now := disks.cache[..];
    forall r: nat, s: nat | s < |second| && OnlyRow(first, r, second[s]) && OnlyRow(second, s, second[s])
      ensures OneGeneration(before, first[r].key, after, second[s].key)
    {
      OnlyUnambiguous(first, r, second[s]);
      StaysOne(cache, now, first, slots, second, slots', r, s);
      ReportOf(first, slots, cache, before, origin, r);
      ReportOf(second, slots', now, after, origin', s);
    }
  }

  const LONE: Reading := Found(0, TWIN, false)

  lemma LoneListing()
    ensures FoundDisks([LONE], 1) == [LONE] && !AnyTooLate([LONE], 1, 1) && !AnyLossy([LONE], 1, 1)
    ensures FoundDisks([Skipped], 1) == [] && !AnyTooLate([Skipped], 1, 1) && !AnyLossy([Skipped], 1, 1)
    ensures forall rows :: RowsOf(rows, [LONE]) ==> rows == [Row(0, TWIN, false)] && !AnyAmbiguous(rows)
  {
    assert [LONE][..0] == [] && [Skipped][..0] == [];
    assert !SharesNumber([LONE], 0);
  }

  lemma OneReport(rows: seq<Row>, slots: seq<int>, cache: seq<Entry>, reports: seq<Report>, origin: seq<nat>, keys: seq<Key>)
    requires rows == [Row(0, TWIN, false)] && Published(rows, slots, cache, reports, origin, 1)
    requires forall p :: p in reports ==> Reported(p, keys)
    ensures |reports| > 0 && reports[0].key == TWIN && 0 < reports[0].generation <= |keys|
    ensures 0 <= slots[0] < |cache| && reports[0].generation == cache[slots[0]].generation
  {
    assert 0 in origin;
    assert reports[0] in reports && origin[0] == 0;
  }

  /** A disk that one listing skips comes back as a new one: it is marked absent although nothing was amiss. */
  method SkipForgets() returns (first: Report, third: Report)
    ensures SameKey(first.key, third.key) && first.generation != third.generation
  {
    hide Published, Inv;
    var disks := new Disks();
    LoneListing();
    var rows, partial, truncated := Gather(1, [LONE], false);
    var reports, slots, origin := disks.Collect(rows, partial, truncated);
    OneReport(rows, slots, disks.cache[..], reports, origin, disks.keys);
    first := reports[0];
    rows, partial, truncated := Gather(1, [Skipped], false);
    reports, slots, origin := disks.Collect(rows, partial, truncated);
    assert forall i :: 0 <= i < MAX_DISKS ==> !disks.cache[..][i].present;
    ghost var empty := disks.cache[..];
    rows, partial, truncated := Gather(1, [LONE], false);
    assert Candidates(empty, rows[0]) == {} && Rivals(rows, 0) == {};
    reports, slots, origin := disks.Collect(rows, partial, truncated);
    OneReport(rows, slots, disks.cache[..], reports, origin, disks.keys);
    third := reports[0];
  }
}

/** The inventory of keys in a process status text: an open-addressed table of 128 slots that
    refuses repeated keys and remembers where the interesting lines are. */
module StatusSpans {
  import opened Bytes

  const MAX_LENGTH: nat := 256 * 1024
  const SLOTS: nat := 128
  const MAX_KEYS: nat := 96
  const NEWLINE: byte := 10
  const COLON: byte := 58

  datatype Span = Span(at: nat, length: nat)
  datatype Line = Line(at: nat, end: nat)

  predicate KeyByte(c: byte) {
    97 <= c <= 122 || 65 <= c <= 90 || 48 <= c <= 57 || c == 95
  }

  // ---- Lines and keys ------------------------------------------------------------------------------------

  function LineEnd(data: seq<byte>, p: nat): (e: nat)
    requires p <= |data|
    ensures p <= e <= |data|
    decreases |data| - p
  {
    if p == |data| || data[p] == NEWLINE then p else LineEnd(data, p + 1)
  }

  function LinesFrom(data: seq<byte>, p: nat): seq<Line>
    decreases |data| - p
  {
    if p >= |data| then [] else [Line(p, LineEnd(data, p))] + LinesFrom(data, LineEnd(data, p) + 1)
  }

  function KeyEnd(data: seq<byte>, p: nat, end: nat): (e: nat)
    requires p <= end <= |data|
    ensures p <= e <= end
    decreases end - p
  {
    if p == end || !KeyByte(data[p]) then p else KeyEnd(data, p + 1, end)
  }

  predicate InText(data: seq<byte>, l: Line) {
    l.at <= l.end <= |data|
  }

  /** The leading run of key bytes is cut short by a byte outside ASCII. */
  predicate Foreign(data: seq<byte>, l: Line) {
    InText(data, l) && var e := KeyEnd(data, l.at, l.end); e < l.end && data[e] >= 128
  }

  predicate Keyed(data: seq<byte>, l: Line) {
    InText(data, l) && var e := KeyEnd(data, l.at, l.end); l.at < e < l.end && data[e] == COLON
  }

  function KeyOf(data: seq<byte>, l: Line): seq<byte> {
    if InText(data, l) then data[l.at..KeyEnd(data, l.at, l.end)] else []
  }

  function KeyedLines(data: seq<byte>, lines: seq<Line>): (keyed: seq<Line>)
    ensures forall l :: l in keyed <==> l in lines && Keyed(data, l)
  {
    if lines == [] then []
    else KeyedLines(data, lines[..|lines| - 1]) + if Keyed(data, lines[|lines| - 1]) then [lines[|lines| - 1]] else []
  }

  predicate DistinctKeys(data: seq<byte>, keyed: seq<Line>) {
    forall i, j :: 0 <= i < j < |keyed| ==> KeyOf(data, keyed[i]) != KeyOf(data, keyed[j])
  }

  /** What a text must be to be decoded here. */
  predicate Plain(data: seq<byte>, lines: seq<Line>) {
    (forall l :: l in lines ==> !Foreign(data, l))
    && |KeyedLines(data, lines)| <= MAX_KEYS && DistinctKeys(data, KeyedLines(data, lines))
  }

  // ---- The table -------------------------------------------------------------------------------------------

  function Entry(data: seq<byte>, s: Span): seq<byte> {
    if s.at + s.length <= |data| then data[s.at..s.at + s.length] else []
  }

  function Home(key: seq<byte>): (h: nat)
    ensures h < SLOTS
  {
    Fnv(key) % SLOTS
  }

  function Probe(h: nat, d: nat): (s: nat)
    ensures s < SLOTS
  {
    (h + d) % SLOTS
  }

  function Occupied(table: seq<Span>): nat {
    if table == [] then 0 else (if table[0].length > 0 then 1 else 0) + Occupied(table[1..])
  }

  /** An entry d steps from its home slot has no gap before it. */
  predicate Reached(data: seq<byte>, table: seq<Span>, s: nat, d: nat)
    requires |table| == SLOTS && s < SLOTS
  {
    d < SLOTS && Probe(Home(Entry(data, table[s])), d) == s
    && forall k :: 0 <= k < d ==> table[Probe(Home(Entry(data, table[s])), k)].length > 0
  }

  ghost predicate Reachable(data: seq<byte>, table: seq<Span>, s: nat)
    requires |table| == SLOTS && s < SLOTS
  {
    exists d :: Reached(data, table, s, d)
  }

  predicate Stores(data: seq<byte>, s: Span, l: Line) {
    Keyed(data, l) && s == Span(l.at, KeyEnd(data, l.at, l.end) - l.at)
  }

  ghost predicate HasSlot(data: seq<byte>, table: seq<Span>, l: Line) {
    exists s :: 0 <= s < |table| && Stores(data, table[s], l)
  }

  ghost predicate StoredLines(data: seq<byte>, table: seq<Span>, keyed: seq<Line>) {
    forall l :: l in keyed ==> HasSlot(data, table, l)
  }

  ghost predicate HasLine(data: seq<byte>, s: Span, keyed: seq<Line>) {
    exists l :: l in keyed && Stores(data, s, l)
  }

  ghost predicate LinesStored(data: seq<byte>, table: seq<Span>, keyed: seq<Line>) {
    forall s :: 0 <= s < |table| && table[s].length > 0 ==> HasLine(data, table[s], keyed)
  }

  ghost predicate TableInv(data: seq<byte>, table: seq<Span>, keyed: seq<Line>) {
    |table| == SLOTS && Occupied(table) == |keyed|
    && (forall s :: 0 <= s < SLOTS && table[s].length > 0 ==> Reachable(data, table, s))
    && StoredLines(data, table, keyed) && LinesStored(data, table, keyed)
  }

  lemma {:induction false} OccupiedUpdate(table: seq<Span>, s: nat, e: Span)
    requires s < |table| && table[s].length == 0 && e.length > 0
    ensures Occupied(table[s := e]) == Occupied(table) + 1
    decreases s
  {
    if s > 0 {
      assert table[s := e][1..] == table[1..][s - 1 := e];
      OccupiedUpdate(table[1..], s - 1, e);
    } else {
      assert table[0 := e][1..] == table[1..];
    }
  }

  lemma {:induction false} OccupiedFull(table: seq<Span>)
    requires forall s :: 0 <= s < |table| ==> table[s].length > 0
    ensures Occupied(table) == |table|
    decreases |table|
  {
    if table != [] {
      OccupiedFull(table[1..]);
    }
  }

  /** Probing all 128 slots covers the table, so with at most 96 keys it meets a gap. */
  lemma GapExists(table: seq<Span>, h: nat)
    requires |table| == SLOTS && Occupied(table) < SLOTS && h < SLOTS
    ensures exists d :: 0 <= d < SLOTS && table[Probe(h, d)].length == 0
  {
    if forall s :: 0 <= s < SLOTS ==> table[s].length > 0 {
      OccupiedFull(table);
    } else {
      var s :| 0 <= s < SLOTS && table[s].length == 0;
      assert Probe(h, (s - h) % SLOTS) == s;
    }
  }

  lemma StoredKey(data: seq<byte>, s: Span, l: Line)
    requires Stores(data, s, l)
    ensures Entry(data, s) == KeyOf(data, l) && |KeyOf(data, l)| == s.length > 0
  {}

  lemma ReachedMeans(data: seq<byte>, table: seq<Span>, s: nat, e: nat, d: nat)
    requires |table| == SLOTS && s < SLOTS && Reached(data, table, s, e) && table[s].length > 0
    requires d < SLOTS && table[Probe(Home(Entry(data, table[s])), d)].length == 0
    ensures e < d && Probe(Home(Entry(data, table[s])), e) == s
  {
    hide Entry, Home, Probe;
  }

  /** A key that is in the table is met before the first gap of its probe sequence. */
  lemma MetBeforeGap(data: seq<byte>, table: seq<Span>, keyed: seq<Line>, l: Line, d: nat)
    requires TableInv(data, table, keyed) && l in keyed
    requires d < SLOTS && table[Probe(Home(KeyOf(data, l)), d)].length == 0
    ensures exists k :: 0 <= k < d && Entry(data, table[Probe(Home(KeyOf(data, l)), k)]) == KeyOf(data, l)
  {
    hide Stores, Keyed, Entry, Home, Probe, KeyOf, Reached, Occupied;
    var s :| 0 <= s < SLOTS && Stores(data, table[s], l);
    StoredKey(data, table[s], l);
    var e :| Reached(data, table, s, e);
    ReachedMeans(data, table, s, e, d);
  }

  /** Entries stay reachable when a gap is filled. */
  lemma StillReachable(data: seq<byte>, table: seq<Span>, slot: nat, e: Span, s: nat)
    requires |table| == SLOTS && slot < SLOTS && s < SLOTS && s != slot && e.length > 0 && Reachable(data, table, s)
    ensures Reachable(data, table[slot := e], s)
  {
    hide Entry, Home, Probe;
    var k :| Reached(data, table, s, k);
    assert Reached(data, table[slot := e], s, k);
  }

  lemma FilledReachable(data: seq<byte>, t: seq<Span>, l: Line, d: nat, e: Span)
    requires |t| == SLOTS && d < SLOTS && Stores(data, e, l) && t[Probe(Home(KeyOf(data, l)), d)] == e
    requires forall k :: 0 <= k < d ==> t[Probe(Home(KeyOf(data, l)), k)].length > 0
    ensures Reachable(data, t, Probe(Home(KeyOf(data, l)), d))
  {
    hide Home, Probe;
    StoredKey(data, e, l);
    assert Reached(data, t, Probe(Home(KeyOf(data, l)), d), d);
  }

  lemma StoresMore(data: seq<byte>, table: seq<Span>, keyed: seq<Line>, l: Line, slot: nat, e: Span)
    requires |table| == SLOTS && slot < SLOTS && table[slot].length == 0 && Stores(data, e, l)
    requires StoredLines(data, table, keyed) && LinesStored(data, table, keyed)
    ensures StoredLines(data, table[slot := e], keyed + [l]) && LinesStored(data, table[slot := e], keyed + [l])
  {
    var t := table[slot := e];
    forall m | m in keyed + [l] ensures HasSlot(data, t, m) {
      if m in keyed {
        var s :| 0 <= s < SLOTS && Stores(data, table[s], m);
        assert Stores(data, t[s], m);
      } else {
        assert Stores(data, t[slot], l);
      }
    }
    forall s | 0 <= s < SLOTS && t[s].length > 0 ensures HasLine(data, t[s], keyed + [l]) {
      if s == slot {
        assert l in keyed + [l] && Stores(data, t[s], l);
      } else {
        var m :| m in keyed && Stores(data, table[s], m);
        assert m in keyed + [l] && Stores(data, t[s], m);
      }
    }
  }

  /** Putting a new key into the gap keeps the table in order. */
  lemma Inserted(data: seq<byte>, table: seq<Span>, keyed: seq<Line>, l: Line, d: nat, e: Span)
    requires TableInv(data, table, keyed) && d < SLOTS && Stores(data, e, l)
    requires table[Probe(Home(KeyOf(data, l)), d)].length == 0
    requires forall k :: 0 <= k < d ==> table[Probe(Home(KeyOf(data, l)), k)].length > 0
    ensures TableInv(data, table[Probe(Home(KeyOf(data, l)), d) := e], keyed + [l])
  {
    hide Entry, Home, Probe, KeyOf, Reachable, Occupied, Stores;
    var slot := Probe(Home(KeyOf(data, l)), d);
    var t := table[slot := e];
    StoredKey(data, e, l);
    OccupiedUpdate(table, slot, e);
    FilledReachable(data, t, l, d, e);
    forall s | 0 <= s < SLOTS && t[s].length > 0 ensures Reachable(data, t, s) {
      if s != slot {
        StillReachable(data, table, slot, e, s);
      }
    }
    assert StoredLines(data, t, keyed + [l]) && LinesStored(data, t, keyed + [l]) by {
      StoresMore(data, table, keyed, l, slot, e);
    }
  }

  // ---- The interesting lines ------------------------------------------------------------------------------------

  const NAMES: seq<string> := ["Uid", "Tgid", "VmRSS", "voluntary_ctxt_switches",
    "nonvoluntary_ctxt_switches", "NSpid", "NStgid", "Cpus_allowed_list", "Mems_allowed_list"]

  predicate Named(key: seq<byte>, name: string) {
    |key| == |name| && forall i :: 0 <= i < |key| ==> key[i] == name[i] as int
  }

  lemma OneName(key: seq<byte>, i: nat, j: nat)
    requires i < |NAMES| && j < |NAMES| && Named(key, NAMES[i]) && Named(key, NAMES[j])
    ensures i == j
  {
    assert NAMES[2][0] == 'V' && NAMES[5][0] == 'N' && NAMES[7][0] == 'C' && NAMES[8][0] == 'M';
    if |NAMES[i]| == 5 || |NAMES[i]| == 17 {
      assert key[0] == NAMES[i][0] as int && key[0] == NAMES[j][0] as int;
    }
  }

  function WholeLine(l: Line): Span {
    Span(l.at, if l.end > l.at then l.end - l.at else 0)
  }

  /** A field is the whole line of its key, or empty when no line has that key. */
  ghost predicate FieldIs(data: seq<byte>, keyed: seq<Line>, name: string, field: Span) {
    (field == Span(0, 0) && forall l :: l in keyed ==> !Named(KeyOf(data, l), name))
    || exists l :: l in keyed && Named(KeyOf(data, l), name) && field == WholeLine(l)
  }

  ghost predicate FieldsAre(data: seq<byte>, keyed: seq<Line>, fields: seq<Span>) {
    |fields| == |NAMES| && forall i :: 0 <= i < |NAMES| ==> FieldIs(data, keyed, NAMES[i], fields[i])
  }

  /** With distinct keys a non-empty field is the one line of its key. */
  lemma FieldUnique(data: seq<byte>, keyed: seq<Line>, name: string, field: Span, l: Line)
    requires DistinctKeys(data, keyed) && FieldIs(data, keyed, name, field) && l in keyed && Named(KeyOf(data, l), name)
    ensures field == WholeLine(l)
  {
    hide KeyOf;
    var m :| m in keyed && Named(KeyOf(data, m), name) && field == WholeLine(m);
    assert KeyOf(data, m) == KeyOf(data, l);
    var i :| 0 <= i < |keyed| && keyed[i] == m;
    var j :| 0 <= j < |keyed| && keyed[j] == l;
  }

  lemma FieldMore(data: seq<byte>, keyed: seq<Line>, l: Line, name: string, field: Span)
    requires FieldIs(data, keyed, name, field) && !Named(KeyOf(data, l), name)
    ensures FieldIs(data, keyed + [l], name, field)
  {
    if m :| m in keyed && Named(KeyOf(data, m), name) && field == WholeLine(m) {
      assert m in keyed + [l];
    }
  }

  // ---- The decoder --------------------------------------------------------------------------------------------------

  method FindEnd(data: seq<byte>, at: nat) returns (end: nat)
    requires at <= |data|
    ensures end == LineEnd(data, at)
  {
    end := at;
    while end < |data| && data[end] != NEWLINE
      invariant at <= end <= |data| && LineEnd(data, at) == LineEnd(data, end)
    {
      end := end + 1;
    }
  }

  /** The key run of a line and its hash. */
  method KeyRun(data: seq<byte>, at: nat, end: nat) returns (keyEnd: nat, hash: u32)
    requires at <= end <= |data|
    ensures keyEnd == KeyEnd(data, at, end) && hash == Fnv(data[at..keyEnd])
  {
    keyEnd, hash := at, 2166136261;
    while keyEnd < end && KeyByte(data[keyEnd])
      invariant at <= keyEnd <= end && KeyEnd(data, at, end) == KeyEnd(data, keyEnd, end)
      invariant hash == Fnv(data[at..keyEnd])
    {
      assert data[at..keyEnd + 1] == data[at..keyEnd] + [data[keyEnd]];
      hash := (Xor(hash, data[keyEnd]) * 16777619) % 0x1_0000_0000;
      keyEnd := keyEnd + 1;
    }
  }

  /** The first `steps` slots of the key's probe sequence hold other keys. */
  ghost predicate Passed(data: seq<byte>, table: seq<Span>, key: seq<byte>, steps: nat)
    requires |table| == SLOTS
  {
    forall k :: 0 <= k < steps ==>
      table[Probe(Home(key), k)].length > 0 && Entry(data, table[Probe(Home(key), k)]) != key
  }

  ghost function Gap(data: seq<byte>, table: seq<Span>, keyed: seq<Line>, key: seq<byte>): (d: nat)
    requires TableInv(data, table, keyed) && |table| == SLOTS && |keyed| <= MAX_KEYS
    ensures d < SLOTS && table[Probe(Home(key), d)].length == 0
  {
    GapExists(table, Home(key));
    var d :| 0 <= d < SLOTS && table[Probe(Home(key), d)].length == 0;
    d
  }

  lemma EntryLength(data: seq<byte>, table: seq<Span>, keyed: seq<Line>, at: nat)
    requires TableInv(data, table, keyed) && at < SLOTS && table[at].length > 0
    ensures |Entry(data, table[at])| == table[at].length
  {
    assert HasLine(data, table[at], keyed);
  }

  lemma PassMore(data: seq<byte>, table: seq<Span>, key: seq<byte>, d: nat)
    requires |table| == SLOTS && Passed(data, table, key, d)
    requires var at := Probe(Home(key), d); table[at].length > 0 && Entry(data, table[at]) != key
    ensures Passed(data, table, key, d + 1)
    ensures Probe(Home(key), d + 1) == (Probe(Home(key), d) + 1) % SLOTS
  {
    hide Home, Entry;
  }

  lemma Insertable(data: seq<byte>, table: seq<Span>, keyed: seq<Line>, l: Line, d: nat, e: Span)
    requires TableInv(data, table, keyed) && |table| == SLOTS && Stores(data, e, l)
    requires d < SLOTS && table[Probe(Home(KeyOf(data, l)), d)].length == 0 && Passed(data, table, KeyOf(data, l), d)
    ensures forall m :: m in keyed ==> KeyOf(data, m) != KeyOf(data, l)
    ensures TableInv(data, table[Probe(Home(KeyOf(data, l)), d) := e], keyed + [l])
  {
    hide Home, Probe, Entry, KeyOf, Stores, TableInv;
    forall m | m in keyed ensures KeyOf(data, m) != KeyOf(data, l) {
      if KeyOf(data, m) == KeyOf(data, l) {
        MetBeforeGap(data, table, keyed, m, d);
      }
    }
    Inserted(data, table, keyed, l, d, e);
  }

  lemma HomeSlot(data: seq<byte>, table: seq<Span>, key: seq<byte>)
    requires |table| == SLOTS
    ensures Home(key) == Fnv(key) % SLOTS && Probe(Home(key), 0) == Home(key) && Passed(data, table, key, 0)
  {}

  lemma RepeatedKey(data: seq<byte>, table: seq<Span>, keyed: seq<Line>, at: nat)
    requires TableInv(data, table, keyed) && at < SLOTS && table[at].length > 0
    ensures exists m :: m in keyed && KeyOf(data, m) == Entry(data, table[at])
  {
    assert HasLine(data, table[at], keyed);
    var m :| m in keyed && Stores(data, table[at], m);
    StoredKey(data, table[at], m);
  }

  /** Linear probing from the key's home slot: the gap for a new key, or none for a repeated one. */
  method Locate(data: seq<byte>, table: seq<Span>, l: Line, e: Span, hash: u32, ghost keyed: seq<Line>)
    returns (slot: Option<nat>)
    requires TableInv(data, table, keyed) && |table| == SLOTS && |keyed| <= MAX_KEYS
    requires Stores(data, e, l) && hash == Fnv(KeyOf(data, l))
    ensures slot.None? <==> exists m :: m in keyed && KeyOf(data, m) == KeyOf(data, l)
    ensures slot.Some? ==> slot.value < SLOTS && TableInv(data, table[slot.value := e], keyed + [l])
  {
    hide *;
    StoredKey(data, e, l);
    var key := KeyOf(data, l);
    ghost var steps := 0;
    HomeSlot(data, table, key);
    ghost var gap := Gap(data, table, keyed, key);
    var at := hash % SLOTS;
    while table[at].length > 0
      invariant 0 <= steps <= gap && at == Probe(Home(key), steps) && at < SLOTS && Passed(data, table, key, steps)
      decreases gap - steps
    {
      assert steps != gap;
      if table[at].length == e.length && Entry(data, table[at]) == key {
        RepeatedKey(data, table, keyed, at);
        return None;
      }
      EntryLength(data, table, keyed, at);
      PassMore(data, table, key, steps);
      at := (at + 1) % SLOTS;
      steps := steps + 1;
    }
    Insertable(data, table, keyed, l, steps, e);
    slot := Some(at);
  }

  /** What the loop knows after the lines before `at`. */
  ghost predicate Progress(data: seq<byte>, done: seq<Line>, at: nat, table: seq<Span>, fields: seq<Span>) {
    LinesFrom(data, 0) == done + LinesFrom(data, at) && Plain(data, done)
    && TableInv(data, table, KeyedLines(data, done)) && FieldsAre(data, KeyedLines(data, done), fields)
  }

  lemma FieldSet(data: seq<byte>, keyed: seq<Line>, fields: seq<Span>, l: Line, i: nat)
    requires FieldsAre(data, keyed, fields) && i < |NAMES| && Named(KeyOf(data, l), NAMES[i])
    ensures FieldsAre(data, keyed + [l], fields[i := WholeLine(l)])
  {
    hide KeyOf, Named;
    var next := fields[i := WholeLine(l)];
    forall k | 0 <= k < |NAMES| ensures FieldIs(data, keyed + [l], NAMES[k], next[k]) {
      if k == i {
        assert l in keyed + [l];
      } else {
        if Named(KeyOf(data, l), NAMES[k]) {
          OneName(KeyOf(data, l), i, k);
        }
        FieldMore(data, keyed, l, NAMES[k], fields[k]);
      }
    }
  }

  method Remember(data: seq<byte>, fields: seq<Span>, l: Line, ghost keyed: seq<Line>) returns (next: seq<Span>)
    requires FieldsAre(data, keyed, fields) && Keyed(data, l)
    ensures FieldsAre(data, keyed + [l], next)
  {
    hide KeyOf, Keyed;
    next := fields;
    var key := KeyOf(data, l);
    for i := 0 to |NAMES|
      invariant next == fields && forall k :: 0 <= k < i ==> !Named(key, NAMES[k])
    {
      if Named(key, NAMES[i]) {
        next := next[i := WholeLine(l)];
        FieldSet(data, keyed, fields, l, i);
        return;
      }
    }
    forall k | 0 <= k < |NAMES| ensures FieldIs(data, keyed + [l], NAMES[k], next[k]) {
      FieldMore(data, keyed, l, NAMES[k], fields[k]);
    }
  }

  lemma {:induction false} OccupiedNone(table: seq<Span>)
    requires forall s :: 0 <= s < |table| ==> table[s].length == 0
    ensures Occupied(table) == 0
    decreases |table|
  {
    if table != [] {
      OccupiedNone(table[1..]);
    }
  }

  lemma Begin(data: seq<byte>, table: seq<Span>, fields: seq<Span>)
    requires |table| == SLOTS && forall s :: 0 <= s < SLOTS ==> table[s] == Span(0, 0)
    requires |fields| == |NAMES| && forall i :: 0 <= i < |NAMES| ==> fields[i] == Span(0, 0)
    ensures Progress(data, [], 0, table, fields) && KeyedLines(data, []) == []
  {
    OccupiedNone(table);
    assert [] + LinesFrom(data, 0) == LinesFrom(data, 0);
  }

  /** The position after a line and its newline, if it has one. */
  function After(data: seq<byte>, end: nat): nat {
    if end < |data| then end + 1 else end
  }

  lemma FirstLine(data: seq<byte>, at: nat)
    requires at < |data|
    ensures LinesFrom(data, at) == [Line(at, LineEnd(data, at))] + LinesFrom(data, After(data, LineEnd(data, at)))
  {}

  lemma Regroup<T>(a: seq<T>, x: T, b: seq<T>)
    ensures a + ([x] + b) == a + [x] + b
  {}

  lemma LineSplit(data: seq<byte>, done: seq<Line>, at: nat, table: seq<Span>, fields: seq<Span>)
    requires Progress(data, done, at, table, fields) && at < |data|
    ensures at <= LineEnd(data, at) <= |data|
    ensures var l := Line(at, LineEnd(data, at)); LinesFrom(data, 0) == done + [l] + LinesFrom(data, After(data, l.end))
    ensures Plain(data, done) && TableInv(data, table, KeyedLines(data, done)) && FieldsAre(data, KeyedLines(data, done), fields)
  {
    hide LinesFrom, Plain, TableInv, FieldsAre, KeyedLines, After;
    var (l, rest) := (Line(at, LineEnd(data, at)), LinesFrom(data, After(data, LineEnd(data, at))));
    FirstLine(data, at);
    Regroup(done, l, rest);
  }

  lemma KeyFacts(data: seq<byte>, l: Line)
    requires l.at <= l.end <= |data|
    ensures var e := KeyEnd(data, l.at, l.end);
      l.at <= e <= l.end && (Foreign(data, l) <==> e < l.end && data[e] >= 128)
      && (Keyed(data, l) <==> l.at < e < l.end && data[e] == COLON) && KeyOf(data, l) == data[l.at..e]
      && (Keyed(data, l) ==> Stores(data, Span(l.at, e - l.at), l))
  {}

  lemma KeyedMore(data: seq<byte>, done: seq<Line>, l: Line)
    ensures KeyedLines(data, done + [l]) == KeyedLines(data, done) + if Keyed(data, l) then [l] else []
  {
    assert (done + [l])[..|done|] == done;
  }

  lemma {:induction false} KeyedPrefix(data: seq<byte>, a: seq<Line>, b: seq<Line>)
    ensures KeyedLines(data, a) <= KeyedLines(data, a + b)
    decreases |b|
  {
    if b == [] {
      assert a + b == a;
    } else {
      var n := |b| - 1;
      KeyedPrefix(data, a, b[..n]);
      assert a + b == (a + b[..n]) + [b[n]];
      KeyedMore(data, a + b[..n], b[n]);
    }
  }

  /** A fault among the first lines of a text is a fault of the text. */
  lemma Refused(data: seq<byte>, done: seq<Line>, rest: seq<Line>)
    requires !Plain(data, done)
    ensures !Plain(data, done + rest)
  {
    hide Foreign, KeyedLines, KeyOf;
    if l :| l in done && Foreign(data, l) {
      assert l in done + rest;
    } else {
      KeyedPrefix(data, done, rest);
      var (few, all) := (KeyedLines(data, done), KeyedLines(data, done + rest));
      assert forall i :: 0 <= i < |few| ==> few[i] == all[i];
    }
  }

  ghost predicate NewKey(data: seq<byte>, done: seq<Line>, l: Line) {
    forall m :: m in KeyedLines(data, done) ==> KeyOf(data, m) != KeyOf(data, l)
  }

  lemma NewKeyMeans(data: seq<byte>, done: seq<Line>, l: Line)
    ensures NewKey(data, done, l) <==> !exists m :: m in KeyedLines(data, done) && KeyOf(data, m) == KeyOf(data, l)
  {}

  /** How one more line changes what a text must be. */
  lemma PlainMore(data: seq<byte>, done: seq<Line>, l: Line)
    requires Plain(data, done)
    ensures Foreign(data, l) ==> !Plain(data, done + [l])
    ensures !Foreign(data, l) && !Keyed(data, l) ==> Plain(data, done + [l])
    ensures !Foreign(data, l) && Keyed(data, l) ==>
      (Plain(data, done + [l]) <==> |KeyedLines(data, done)| < MAX_KEYS && NewKey(data, done, l))
  {
    hide Foreign, KeyedLines, KeyOf;
    KeyedMore(data, done, l);
    assert l in done + [l];
    var (few, all) := (KeyedLines(data, done), KeyedLines(data, done + [l]));
    if Keyed(data, l) {
      assert all[|few|] == l && forall i :: 0 <= i < |few| ==> all[i] == few[i];
      if m :| m in few && KeyOf(data, m) == KeyOf(data, l) {
        var i :| 0 <= i < |few| && few[i] == m;
        assert all[i] == m;
      }
    }
  }

  lemma ProgressMore(data: seq<byte>, done: seq<Line>, l: Line, table: seq<Span>, fields: seq<Span>, next: nat)
    requires LinesFrom(data, 0) == done + [l] + LinesFrom(data, next) && Plain(data, done + [l])
    requires TableInv(data, table, KeyedLines(data, done + [l])) && FieldsAre(data, KeyedLines(data, done + [l]), fields)
    ensures Progress(data, done + [l], next, table, fields)
  {}

  lemma Finished(data: seq<byte>, done: seq<Line>, at: nat, table: seq<Span>, fields: seq<Span>)
    requires Progress(data, done, at, table, fields) && at >= |data|
    ensures Plain(data, LinesFrom(data, 0)) && FieldsAre(data, KeyedLines(data, LinesFrom(data, 0)), fields)
  {
    assert done + [] == done;
  }

  lemma Advances(data: seq<byte>, end: nat)
    requires end <= |data|
    ensures After(data, end) == |data| || After(data, end) == end + 1 <= |data|
  {}

  /** A text is decoded exactly when it is at most 256 KiB, no line's key run meets a byte outside ASCII, and
      at most 96 keyed lines have distinct keys; every field is then the one line of its key. */
  method Spans(data: seq<byte>) returns (fields: Option<seq<Span>>)
    ensures fields.Some? <==> |data| <= MAX_LENGTH && Plain(data, LinesFrom(data, 0))
    ensures fields.Some? ==> FieldsAre(data, KeyedLines(data, LinesFrom(data, 0)), fields.value)
  {
    hide *;
    if |data| > MAX_LENGTH { return None; }
    var seen := new Span[SLOTS](_ => Span(0, 0));
    var found := seq(|NAMES|, _ => Span(0, 0));
    var at: nat, count: nat := 0, 0;
    ghost var done: seq<Line> := [];
    Begin(data, seen[..], found);
    while at < |data|
      invariant Progress(data, done, at, seen[..], found) && seen.Length == SLOTS
      invariant count == |KeyedLines(data, done)| <= MAX_KEYS
      decreases |data| - at
    {
      LineSplit(data, done, at, seen[..], found);
      var end := FindEnd(data, at);
      var l := Line(at, end);
      ghost var rest := LinesFrom(data, After(data, end));
      var keyEnd, hash := KeyRun(data, at, end);
      KeyFacts(data, l);
      PlainMore(data, done, l);
      KeyedMore(data, done, l);
      if keyEnd < end && data[keyEnd] >= 128 {
        Refused(data, done + [l], rest);
        return None;
      }
      if keyEnd > at && keyEnd < end && data[keyEnd] == COLON {
        ghost var keyed := KeyedLines(data, done);
        var e := Span(at, keyEnd - at);
        var slot := Locate(data, seen[..], l, e, hash, keyed);
        assert slot.Some? <==> NewKey(data, done, l) by { NewKeyMeans(data, done, l); }
        if slot.None? || count + 1 > MAX_KEYS {
          Refused(data, done + [l], rest);
          return None;
        }
        count := count + 1;
        ghost var table := seen[..][slot.value := e];
        seen[slot.value] := e;
        assert seen[..] == table;
        found := Remember(data, found, l, keyed);
      } else {
        assert KeyedLines(data, done) + [] == KeyedLines(data, done);
      }
      ProgressMore(data, done, l, seen[..], found, After(data, end));
      done := done + [l];
      at := After(data, end);
      Advances(data, end);
    }
    Finished(data, done, at, seen[..], found);
    fields := Some(found);
  }

  // ---- In terms of the text -----------------------------------------------------------------------------------------

  /** A stretch without a newline, up to one or to the end of the text. */
  predicate IsLine(data: seq<byte>, l: Line) {
    l.at <= l.end <= |data| && 10 !in data[l.at..l.end] && (l.end == |data| || data[l.end] == 10)
  }

  /** These are the lines of the text from p on: each ends before the next newline or at the end of the text, and the
      next one starts behind that newline. A newline at the very end starts no line. */
  ghost predicate AreLines(data: seq<byte>, p: nat, lines: seq<Line>) {
    (lines == [] <==> p >= |data|)
    && (lines != [] ==> lines[0].at == p && lines[|lines| - 1].end + 1 >= |data|)
    && (forall k :: 0 <= k < |lines| ==> IsLine(data, lines[k]))
    && (forall k :: 0 <= k < |lines| - 1 ==> lines[k + 1].at == lines[k].end + 1)
  }

  lemma {:induction false} LineEndMeans(data: seq<byte>, p: nat)
    requires p <= |data|
    ensures 10 !in data[p..LineEnd(data, p)] && (LineEnd(data, p) == |data| || data[LineEnd(data, p)] == 10)
    decreases |data| - p
  {
    if p < |data| && data[p] != 10 {
      LineEndMeans(data, p + 1);
      assert data[p..LineEnd(data, p)] == [data[p]] + data[p + 1..LineEnd(data, p)];
    }
  }

  lemma LinesCons(data: seq<byte>, first: Line, rest: seq<Line>)
    requires first.at < |data| && IsLine(data, first) && AreLines(data, first.end + 1, rest)
    ensures AreLines(data, first.at, [first] + rest)
  {
    hide IsLine;
    var lines := [first] + rest;
    assert forall k :: 1 <= k < |lines| ==> lines[k] == rest[k - 1];
  }

  lemma {:induction false} LinesMean(data: seq<byte>, p: nat)
    ensures AreLines(data, p, LinesFrom(data, p))
    decreases |data| - p
  {
    if p < |data| {
      LineEndMeans(data, p);
      LinesMean(data, LineEnd(data, p) + 1);
      var (first, rest) := (Line(p, LineEnd(data, p)), LinesFrom(data, LineEnd(data, p) + 1));
      LinesCons(data, first, rest);
    }
  }

  /** Letters, digits and the underscore. */
  predicate KeyBytes(s: seq<byte>) {
    forall i :: 0 <= i < |s| ==> 97 <= s[i] <= 122 || 65 <= s[i] <= 90 || 48 <= s[i] <= 57 || s[i] == 95
  }

  lemma {:induction false} KeyEndMeans(data: seq<byte>, p: nat, end: nat)
    requires p <= end <= |data|
    ensures var e := KeyEnd(data, p, end);
      KeyBytes(data[p..e]) && (e < end ==> !KeyByte(data[e]))
    decreases end - p
  {
    if p < end && KeyByte(data[p]) {
      KeyEndMeans(data, p + 1, end);
      assert data[p..KeyEnd(data, p, end)] == [data[p]] + data[p + 1..KeyEnd(data, p, end)];
    }
  }

  lemma {:induction false} KeyEndIs(data: seq<byte>, p: nat, end: nat, n: nat)
    requires p + n <= end <= |data| && KeyBytes(data[p..p + n]) && (p + n < end ==> !KeyByte(data[p + n]))
    ensures KeyEnd(data, p, end) == p + n
    decreases n
  {
    if n > 0 {
      assert data[p..p + n][0] == data[p];
      assert data[p + 1..p + n] == data[p..p + n][1..];
      KeyEndIs(data, p + 1, end, n - 1);
    }
  }

  lemma KeyStarts(data: seq<byte>, l: Line, key: seq<byte>)
    requires l.at <= l.end <= |data| && key != [] && KeyBytes(key) && key + [58] <= data[l.at..l.end]
    ensures Keyed(data, l) && KeyOf(data, l) == key
  {
    var text := data[l.at..l.end];
    assert text[..|key| + 1] == key + [58];
    assert text[..|key|] == text[..|key| + 1][..|key|] == key;
    assert data[l.at..l.at + |key|] == text[..|key|];
    assert data[l.at + |key|] == text[|key|] == text[..|key| + 1][|key|] == 58;
    KeyEndIs(data, l.at, l.end, |key|);
  }

  /** A line carries the key it starts with: key bytes, at least one, and a colon. */
  lemma KeyMeans(data: seq<byte>, l: Line, key: seq<byte>)
    requires l.at <= l.end <= |data|
    ensures Keyed(data, l) && KeyOf(data, l) == key <==> key != [] && KeyBytes(key) && key + [58] <= data[l.at..l.end]
  {
    var (text, e) := (data[l.at..l.end], KeyEnd(data, l.at, l.end));
    KeyEndMeans(data, l.at, l.end);
    if Keyed(data, l) && KeyOf(data, l) == key {
      assert text[..|key| + 1] == key + [58];
    }
    if key != [] && KeyBytes(key) && key + [58] <= text { KeyStarts(data, l, key); }
  }

  /** Behind n key bytes the line has a byte outside ASCII. */
  predicate ForeignAt(data: seq<byte>, l: Line, n: nat) {
    l.at + n < l.end <= |data| && KeyBytes(data[l.at..l.at + n]) && data[l.at + n] >= 128
  }

  /** A text is refused for a byte outside ASCII right behind the key bytes a line starts with. */
  lemma ForeignMeans(data: seq<byte>, l: Line)
    requires l.at <= l.end <= |data|
    ensures Foreign(data, l) <==> exists n: nat :: ForeignAt(data, l, n)
  {
    var e := KeyEnd(data, l.at, l.end);
    KeyEndMeans(data, l.at, l.end);
    if Foreign(data, l) { assert ForeignAt(data, l, e - l.at); }
    if n: nat :| ForeignAt(data, l, n) { KeyEndIs(data, l.at, l.end, n); }
  }

  /** The bytes of a name and the colon behind it. */
  function Header(name: string): seq<int> {
    seq(|name|, i requires 0 <= i < |name| => name[i] as int) + [58]
  }

  ghost predicate LineOf(data: seq<byte>, lines: seq<Line>, name: string, l: Line) {
    l in lines && l.at <= l.end <= |data| && Header(name) <= data[l.at..l.end]
  }

  lemma NamesAreKeys(i: nat)
    requires i < |NAMES|
    ensures NAMES[i] != "" && forall k :: 0 <= k < |NAMES[i]| ==>
      'a' <= NAMES[i][k] <= 'z' || 'A' <= NAMES[i][k] <= 'Z' || NAMES[i][k] == '_'
  {}

  lemma NamedMeans(data: seq<byte>, l: Line, i: nat)
    requires l.at <= l.end <= |data| && i < |NAMES|
    ensures Keyed(data, l) && Named(KeyOf(data, l), NAMES[i]) <==> Header(NAMES[i]) <= data[l.at..l.end]
  {
    NamesAreKeys(i);
    hide NAMES, KeyOf, Keyed;
    var name := NAMES[i];
    var text := data[l.at..l.end];
    if Keyed(data, l) && Named(KeyOf(data, l), name) {
      KeyMeans(data, l, KeyOf(data, l));
      assert Header(name) == KeyOf(data, l) + [58];
    }
    if Header(name) <= text {
      var key: seq<byte> := text[..|name|];
      assert text[..|name| + 1] == Header(name);
      assert forall k :: 0 <= k < |name| ==> key[k] == Header(name)[k];
      assert key + [58] == text[..|name| + 1];
      KeyMeans(data, l, key);
    }
  }

  /** Each field of a text that is accepted is the one line that starts with its name and a colon, whole, or empty when
      there is no such line. */
  lemma FieldsMean(data: seq<byte>, fields: seq<Span>, i: nat, l: Line)
    requires Plain(data, LinesFrom(data, 0)) && FieldsAre(data, KeyedLines(data, LinesFrom(data, 0)), fields)
    requires i < |NAMES|
    ensures LineOf(data, LinesFrom(data, 0), NAMES[i], l) ==> fields[i] == Span(l.at, l.end - l.at)
    ensures (forall m :: !LineOf(data, LinesFrom(data, 0), NAMES[i], m)) ==> fields[i] == Span(0, 0)
  {
    hide NAMES, KeyOf, Keyed, Header, Named;
    var lines := LinesFrom(data, 0);
    var keyed := KeyedLines(data, lines);
    LinesMean(data, 0);
    assert FieldIs(data, keyed, NAMES[i], fields[i]);
    forall m | m in lines
      ensures m.at <= m.end <= |data|
      ensures m in keyed && Named(KeyOf(data, m), NAMES[i]) <==> LineOf(data, lines, NAMES[i], m)
    {
      NamedMeans(data, m, i);
    }
    if LineOf(data, lines, NAMES[i], l) { FieldUnique(data, keyed, NAMES[i], fields[i], l); }
  }
}

/** Netlink attributes as the Wi-Fi reader writes and reads them: two little-endian 16-bit words for
    length and type, the value, and padding to a multiple of four. */
module WifiAttributes {
  import opened Bytes

  /** One attribute on the wire, with whatever its padding holds. */
  datatype Attribute = Attribute(kind: u16, data: seq<byte>, pad: seq<byte>)

  /** What a lookup answers. `flags` are the two high bits of the type. */
  datatype Lookup = Malformed | Absent | Found(data: seq<byte>, flags: nat)

  const NET_BYTEORDER: nat := 0x4000

  function Aligned(n: nat): (r: nat)
    ensures n <= r < n + 4 && r % 4 == 0
  {
    (n + 3) / 4 * 4
  }

  predicate Fits(a: Attribute) {
    4 + |a.data| <= 0xFFFF && 4 + |a.data| + |a.pad| == Aligned(4 + |a.data|)
  }

  predicate AllFit(attributes: seq<Attribute>) {
    forall a :: a in attributes ==> Fits(a)
  }

  function Wire(a: Attribute): seq<byte> {
    ToLE(4 + |a.data|, 2) + ToLE(a.kind, 2) + a.data + a.pad
  }

  function WireAll(attributes: seq<Attribute>): seq<byte> {
    if attributes == [] then [] else Wire(attributes[0]) + WireAll(attributes[1..])
  }

  /** The attributes from position p on, if they tile the rest exactly. */
  function ParseFrom(data: seq<byte>, p: nat): Option<seq<Attribute>>
    requires p <= |data|
    decreases |data| - p
  {
    if p == |data| then Some([])
    else if |data| - p < 4 then None
    else
      var size := U16(data[p..p + 2]);
      if size < 4 || size > |data| - p || Aligned(size) > |data| - p then None
      else
        var rest := ParseFrom(data, p + Aligned(size));
        if rest.None? then None
        else Some([Attribute(U16(data[p + 2..p + 4]), data[p + 4..p + size], data[p + size..p + Aligned(size)])] + rest.value)
  }

  function Masked(a: Attribute): nat {
    a.kind % 0x4000
  }

  function One(a: Attribute, key: nat): seq<Attribute> {
    if Masked(a) == key then [a] else []
  }

  function Select(attributes: seq<Attribute>, key: nat): seq<Attribute> {
    if attributes == [] then []
    else One(attributes[0], key) + Select(attributes[1..], key)
  }

  function AnswerFrom(selected: seq<Attribute>): Lookup {
    if |selected| > 1 then Malformed
    else if selected == [] then Absent
    else Found(selected[0].data, selected[0].kind - Masked(selected[0]))
  }

  /** A lookup fails on anything but a list of aligned attributes, and on a repeated key. */
  function Answer(data: seq<byte>, key: nat): Lookup {
    var parsed := ParseFrom(data, 0);
    if parsed.None? then Malformed else AnswerFrom(Select(parsed.value, key))
  }

  // ---- The layout is faithful in both directions ----------------------------------------------------------

  lemma WireParts(data: seq<byte>, p: nat, a: Attribute)
    requires Fits(a) && p + |Wire(a)| <= |data| && data[p..p + |Wire(a)|] == Wire(a)
    ensures |Wire(a)| == Aligned(4 + |a.data|)
    ensures U16(data[p..p + 2]) == 4 + |a.data| && U16(data[p + 2..p + 4]) == a.kind
    ensures data[p + 4..p + 4 + |a.data|] == a.data
    ensures data[p + 4 + |a.data|..p + |Wire(a)|] == a.pad
  {
    hide ToLE, FromLE;
    Widths();
    var (size, kind) := (ToLE(4 + |a.data|, 2), ToLE(a.kind, 2));
    assert Wire(a) == size + (kind + (a.data + a.pad));
    Located(data, p, size, kind + (a.data + a.pad));
    Located(data, p + 2, kind, a.data + a.pad);
    Located(data, p + 4, a.data, a.pad);
    FromToLE(4 + |a.data|, 2);
    FromToLE(a.kind, 2);
  }

  lemma ParseFirst(data: seq<byte>, p: nat, a: Attribute, rest: seq<Attribute>)
    requires Fits(a) && p + |Wire(a)| <= |data| && data[p..p + |Wire(a)|] == Wire(a)
    requires ParseFrom(data, p + |Wire(a)|) == Some(rest)
    ensures ParseFrom(data, p) == Some([a] + rest)
  {
    hide Wire;
    WireParts(data, p, a);
  }

  lemma WrittenFirst(data: seq<byte>, p: nat, attributes: seq<Attribute>)
    requires attributes != [] && AllFit(attributes) && p <= |data| && data[p..] == WireAll(attributes)
    ensures var (a, q) := (attributes[0], p + |Wire(attributes[0])|);
      Fits(a) && AllFit(attributes[1..]) && q <= |data| && data[p..q] == Wire(a) && data[q..] == WireAll(attributes[1..])
      && attributes == [a] + attributes[1..]
  {
    hide Wire;
    assert data[p..p + |data[p..]|] == data[p..];
    Located(data, p, Wire(attributes[0]), WireAll(attributes[1..]));
  }

  /** Any list of attributes that was written out is read back as it was. */
  lemma {:induction false} ParseWritten(data: seq<byte>, p: nat, attributes: seq<Attribute>)
    requires AllFit(attributes) && p <= |data| && data[p..] == WireAll(attributes)
    ensures ParseFrom(data, p) == Some(attributes)
    decreases |attributes|
  {
    if attributes != [] {
      hide *;
      WrittenFirst(data, p, attributes);
      ParseWritten(data, p + |Wire(attributes[0])|, attributes[1..]);
      ParseFirst(data, p, attributes[0], attributes[1..]);
    }
  }

  lemma WireRead(data: seq<byte>, p: nat, size: nat, q: nat)
    requires 4 <= size && p + size <= q <= |data| && U16(data[p..p + 2]) == size
    ensures Wire(Attribute(U16(data[p + 2..p + 4]), data[p + 4..p + size], data[p + size..q])) == data[p..q]
  {
    hide ToLE, FromLE;
    var (a, b, c, d) := (data[p..p + 2], data[p + 2..p + 4], data[p + 4..p + size], data[p + size..q]);
    ToFromLE(a);
    ToFromLE(b);
    assert ToLE(4 + |c|, 2) == a && ToLE(U16(b), 2) == b;
    var (head, rest) := (data[p..p + 4], data[p + 4..q]);
    assert head == a + b && rest == c + d;
    assert data[p..q] == head + rest;
    assert a + b + c + d == head + rest;
  }

  /** The attribute at p, when its header is in range. */
  function AttributeAt(data: seq<byte>, p: nat): (a: Attribute)
    requires p + 4 <= |data| && 4 <= U16(data[p..p + 2]) && p + Aligned(U16(data[p..p + 2])) <= |data|
    ensures Fits(a) && p + Aligned(4 + |a.data|) <= |data|
  {
    var size := U16(data[p..p + 2]);
    Attribute(U16(data[p + 2..p + 4]), data[p + 4..p + size], data[p + size..p + Aligned(size)])
  }

  lemma AttributeWire(data: seq<byte>, p: nat)
    requires p + 4 <= |data| && 4 <= U16(data[p..p + 2]) && p + Aligned(U16(data[p..p + 2])) <= |data|
    ensures Wire(AttributeAt(data, p)) == data[p..p + Aligned(4 + |AttributeAt(data, p).data|)]
  {
    var size := U16(data[p..p + 2]);
    WireRead(data, p, size, p + Aligned(size));
  }

  lemma ParsedFirst(data: seq<byte>, p: nat)
    requires p < |data| && ParseFrom(data, p).Some?
    ensures p + 4 <= |data| && 4 <= U16(data[p..p + 2]) && p + Aligned(U16(data[p..p + 2])) <= |data|
    ensures var (a, q) := (AttributeAt(data, p), p + Aligned(U16(data[p..p + 2])));
      q == p + Aligned(4 + |a.data|) && ParseFrom(data, q).Some?
      && ParseFrom(data, p).value == [a] + ParseFrom(data, q).value
  {}

  /** Attributes that fit and fill the bytes exactly. */
  predicate Tiles(attributes: seq<Attribute>, data: seq<byte>) {
    AllFit(attributes) && WireAll(attributes) == data
  }

  lemma NothingLeft(data: seq<byte>)
    ensures ParseFrom(data, |data|) == Some([]) && Tiles([], data[|data|..])
  {}

  lemma TilesMore(a: Attribute, rest: seq<Attribute>, tail: seq<byte>)
    requires Fits(a) && Tiles(rest, tail)
    ensures Tiles([a] + rest, Wire(a) + tail)
  {
    assert ([a] + rest)[1..] == rest;
  }

  /** And whatever is read without complaint is exactly such a list. */
  lemma {:induction false} WriteParsed(data: seq<byte>, p: nat)
    requires p <= |data| && ParseFrom(data, p).Some?
    ensures Tiles(ParseFrom(data, p).value, data[p..])
    decreases |data| - p
  {
    hide *;
    if p == |data| {
      NothingLeft(data);
    } else {
      ParsedFirst(data, p);
      var a := AttributeAt(data, p);
      var q := p + Aligned(4 + |a.data|);
      WriteParsed(data, q);
      AttributeWire(data, p);
      TilesMore(a, ParseFrom(data, q).value, data[q..]);
      assert data[p..] == data[p..q] + data[q..];
    }
  }

  /** A lookup succeeds exactly on views tiled by aligned attributes among which the key occurs at most
      once, and then it answers with that occurrence. */
  lemma AnswerExact(data: seq<byte>, key: nat)
    ensures Answer(data, key) != Malformed <==>
      exists attributes :: Tiles(attributes, data) && |Select(attributes, key)| <= 1
    ensures forall attributes :: Tiles(attributes, data) ==>
      Answer(data, key) == AnswerFrom(Select(attributes, key))
  {
    hide WireAll, Wire, Select, Fits;
    forall attributes | Tiles(attributes, data)
      ensures Answer(data, key) == AnswerFrom(Select(attributes, key)) {
      ParseWritten(data, 0, attributes);
    }
    assert data[0..] == data;
    if ParseFrom(data, 0).Some? {
      WriteParsed(data, 0);
    }
  }

  predicate DistinctKeys(attributes: seq<Attribute>) {
    forall i, j :: 0 <= i < j < |attributes| ==> Masked(attributes[i]) != Masked(attributes[j])
  }

  lemma {:induction false} SelectNone(attributes: seq<Attribute>, key: nat)
    requires forall i :: 0 <= i < |attributes| ==> Masked(attributes[i]) != key
    ensures Select(attributes, key) == []
    decreases |attributes|
  {
    if attributes != [] {
      SelectNone(attributes[1..], key);
    }
  }

  lemma {:induction false} SelectOne(attributes: seq<Attribute>, i: nat)
    requires DistinctKeys(attributes) && i < |attributes|
    ensures Select(attributes, Masked(attributes[i])) == [attributes[i]]
    decreases i
  {
    if i == 0 {
      SelectNone(attributes[1..], Masked(attributes[0]));
    } else {
      SelectOne(attributes[1..], i - 1);
    }
  }

  lemma AnswerWritten(attributes: seq<Attribute>, key: nat)
    requires AllFit(attributes)
    ensures Answer(WireAll(attributes), key) == AnswerFrom(Select(attributes, key))
  {
    var data := WireAll(attributes);
    assert data[0..] == data;
    ParseWritten(data, 0, attributes);
  }

  /** A buffer written with distinct keys gives back each value under its key and nothing under any other. */
  lemma WrittenFound(attributes: seq<Attribute>, i: nat)
    requires AllFit(attributes) && DistinctKeys(attributes) && i < |attributes|
    ensures var a := attributes[i]; Answer(WireAll(attributes), Masked(a)) == Found(a.data, a.kind - Masked(a))
  {
    hide WireAll, Select, Answer;
    AnswerWritten(attributes, Masked(attributes[i]));
    SelectOne(attributes, i);
  }

  lemma OthersAbsent(attributes: seq<Attribute>, key: nat)
    requires AllFit(attributes) && forall i :: 0 <= i < |attributes| ==> Masked(attributes[i]) != key
    ensures Answer(WireAll(attributes), key) == Absent
  {
    hide WireAll, Select, Answer;
    AnswerWritten(attributes, key);
    SelectNone(attributes, key);
  }

  // ---- Writing and reading ------------------------------------------------------------------------------------

  function Zeros(n: nat): (s: seq<byte>)
    ensures |s| == n
  {
    seq(n, _ => 0)
  }

  /** The attribute a write produces: zero padding. */
  function Made(kind: u16, data: seq<byte>): Attribute {
    Attribute(kind, data, Zeros(Aligned(4 + |data|) - 4 - |data|))
  }

  lemma {:induction false} WireAllSnoc(attributes: seq<Attribute>, a: Attribute)
    ensures WireAll(attributes + [a]) == WireAll(attributes) + Wire(a)
    decreases |attributes|
  {
    if attributes == [] {
      assert [a][1..] == [];
    } else {
      assert (attributes + [a])[1..] == attributes[1..] + [a];
      WireAllSnoc(attributes[1..], a);
    }
  }

  method Copy(buffer: array<byte>, at: nat, s: seq<byte>)
    requires at + |s| <= buffer.Length
    modifies buffer
    ensures buffer[..] == old(buffer[..at]) + s + old(buffer[at + |s|..])
  {
    for i := 0 to |s|
      invariant buffer[..] == old(buffer[..at]) + s[..i] + old(buffer[at + i..])
    {
      buffer[at + i] := s[i];
    }
  }

  /** Appends one attribute, or changes nothing when it does not fit. */
  method Put(buffer: array<byte>, length: nat, kind: u16, data: seq<byte>) returns (ok: bool, next: nat)
    modifies buffer
    ensures ok <==> 4 + |data| <= 0xFFFF && length <= buffer.Length && Aligned(4 + |data|) <= buffer.Length - length
    ensures ok ==> length <= next <= buffer.Length && Fits(Made(kind, data))
    ensures ok ==> buffer[..next] == old(buffer[..length]) + Wire(Made(kind, data))
    ensures ok ==> buffer[next..] == old(buffer[next..])
    ensures !ok ==> next == length && buffer[..] == old(buffer[..])
  {
    hide ToLE;
    var total := 4 + |data|;
    var aligned := Aligned(total);
    if total > 0xFFFF || length > buffer.Length || aligned > buffer.Length - length {
      return false, length;
    }
    var attribute := Made(kind, data);
    Copy(buffer, length, Wire(attribute));
    ok, next := true, length + aligned;
  }

  /** The attributes read so far, followed by whatever the rest parses to, are what the view parses to. */
  ghost predicate Continues(view: seq<byte>, got: seq<Attribute>, p: nat)
    requires p <= |view|
  {
    ParseFrom(view, 0) == (if ParseFrom(view, p).None? then None else Some(got + ParseFrom(view, p).value))
  }

  lemma Start(view: seq<byte>, key: nat)
    ensures Continues(view, [], 0) && Select([], key) == []
  {
    if ParseFrom(view, 0).Some? {
      assert [] + ParseFrom(view, 0).value == ParseFrom(view, 0).value;
    }
  }

  lemma Finish(view: seq<byte>, got: seq<Attribute>, key: nat)
    requires Continues(view, got, |view|)
    ensures Answer(view, key) == AnswerFrom(Select(got, key))
  {
    assert got + [] == got;
  }

  /** Bytes that do not start with an attribute that fits spoil the whole view. */
  lemma Stuck(view: seq<byte>, got: seq<Attribute>, p: nat, key: nat)
    requires p < |view| && Continues(view, got, p)
    ensures |view| - p < 4 ==> Answer(view, key) == Malformed
    ensures |view| - p >= 4 && (U16(view[p..p + 2]) < 4 || Aligned(U16(view[p..p + 2])) > |view| - p) ==>
      Answer(view, key) == Malformed
  {}

  lemma ParseOne(view: seq<byte>, p: nat)
    requires p + 4 <= |view| && 4 <= U16(view[p..p + 2]) && p + Aligned(U16(view[p..p + 2])) <= |view|
    ensures var size := U16(view[p..p + 2]);
      var (q, rest) := (p + Aligned(size), ParseFrom(view, p + Aligned(size)));
      ParseFrom(view, p) == if rest.None? then None
        else Some([Attribute(U16(view[p + 2..p + 4]), view[p + 4..p + size], view[p + size..q])] + rest.value)
  {}

  lemma Advance(view: seq<byte>, got: seq<Attribute>, p: nat, a: Attribute, q: nat)
    requires p < q <= |view| && Continues(view, got, p)
    requires ParseFrom(view, p) == (if ParseFrom(view, q).None? then None else Some([a] + ParseFrom(view, q).value))
    ensures Continues(view, got + [a], q)
  {
    if ParseFrom(view, q).Some? {
      assert got + ([a] + ParseFrom(view, q).value) == got + [a] + ParseFrom(view, q).value;
    }
  }

  lemma SelectCons(a: Attribute, rest: seq<Attribute>, key: nat)
    ensures Select([a] + rest, key) == One(a, key) + Select(rest, key) && Select([], key) == []
  {
    assert ([a] + rest)[1..] == rest;
  }

  lemma {:induction false} SelectAppend(a: seq<Attribute>, b: seq<Attribute>, key: nat)
    ensures Select(a + b, key) == Select(a, key) + Select(b, key)
    decreases |a|
  {
    hide Select, One;
    if a == [] {
      assert a + b == b;
      SelectCons(Attribute(0, [], []), [], key);
    } else {
      assert a == [a[0]] + a[1..];
      assert a + b == [a[0]] + (a[1..] + b);
      SelectCons(a[0], a[1..] + b, key);
      SelectCons(a[0], a[1..], key);
      SelectAppend(a[1..], b, key);
    }
  }

  lemma SelectSnoc(got: seq<Attribute>, a: Attribute, key: nat)
    ensures Select(got + [a], key) == Select(got, key) + One(a, key)
  {
    SelectAppend(got, [a], key);
    assert [a][1..] == [];
  }

  /** Once the key has occurred twice no rest can save the lookup. */
  lemma Repeated(view: seq<byte>, got: seq<Attribute>, p: nat, key: nat)
    requires p <= |view| && Continues(view, got, p) && |Select(got, key)| > 1
    ensures Answer(view, key) == Malformed
  {
    if ParseFrom(view, p).Some? {
      SelectAppend(got, ParseFrom(view, p).value, key);
    }
  }

  /** Walks the whole view, insists that attributes tile it, and refuses a second occurrence. */
  method Find(view: seq<byte>, key: nat) returns (r: Lookup)
    ensures r == Answer(view, key)
  {
    hide Aligned, Continues, ParseFrom, Select;
    var p, found := 0, Absent;
    Start(view, key);
    ghost var got: seq<Attribute> := [];
    while p < |view|
      invariant p <= |view|
      invariant Continues(view, got, p)
      invariant found != Malformed && |Select(got, key)| <= 1 && found == AnswerFrom(Select(got, key))
      decreases |view| - p
    {
      Stuck(view, got, p, key);
      if |view| - p < 4 { return Malformed; }
      var size := U16(view[p..p + 2]);
      if size < 4 || size > |view| - p { return Malformed; }
      var aligned := Aligned(size);
      if aligned > |view| - p { return Malformed; }
      var kind := U16(view[p + 2..p + 4]);
      ghost var a := Attribute(kind, view[p + 4..p + size], view[p + size..p + aligned]);
      SelectSnoc(got, a, key);
      ParseOne(view, p);
      Advance(view, got, p, a, p + aligned);
      if kind % 0x4000 == key {
        if found != Absent {
          Repeated(view, got + [a], p + aligned, key);
          return Malformed;
        }
        found := Found(view[p + 4..p + size], kind - kind % 0x4000);
      }
      got := got + [a];
      p := p + aligned;
    }
    r := found;
    Finish(view, got, key);
  }

  predicate NetworkOrder(flags: nat) {
    (flags / NET_BYTEORDER) % 2 == 1
  }

  /** A 32-bit value: present with the wrong size or in network order is an error. */
  function Word(view: seq<byte>, key: nat): Option<Option<u32>> {
    match Answer(view, key)
    case Malformed => None
    case Absent => Some(None)
    case Found(data, flags) =>
      if |data| != 4 || NetworkOrder(flags) then None else Some(Some(U32(data)))
  }

  method FindWord(view: seq<byte>, key: nat) returns (r: Option<Option<u32>>)
    ensures r == Word(view, key)
  {
    var field := Find(view, key);
    match field {
      case Malformed => r := None;
      case Absent => r := Some(None);
      case Found(data, flags) =>
        if |data| != 4 || NetworkOrder(flags) { return None; }
        r := Some(Some(U32(data)));
    }
  }
}

/** The texts of the NVML collector: driver strings, hexadecimal numbers and PCI addresses. */
module NvmlText {
  import opened Bytes

  /** What a snprintf or a constant leaves: a C string. */
  type CText = t: seq<byte> | |t| <= 256 && 0 !in t

  /** The buffer of a text query, as the driver left it. */
  type Buffer = b: seq<byte> | |b| <= 256

  function CLength(b: seq<byte>): (n: nat)
    ensures n <= |b| && 0 !in b[..n] && (n < |b| ==> b[n] == 0)
  {
    if b == [] || b[0] == 0 then 0
    else
      var n := CLength(b[1..]);
      assert b[..n + 1] == [b[0]] + b[1..][..n];
      n + 1
  }

  predicate ValidText(b: Buffer) { 0 < CLength(b) < |b| }

  function TextOf(b: Buffer): CText { b[..CLength(b)] }

  /** The text of a query that answered with a terminated, non-empty string. */
  function Queried(reply: Option<Buffer>): Option<CText> {
    if reply.Some? && ValidText(reply.value) then Some(TextOf(reply.value)) else None
  }

  // ---- Hexadecimal numbers ---------------------------------------------------------------------------

  function HexDigit(c: byte): Option<nat> {
    if 48 <= c <= 57 then Some(c - 48)
    else if 97 <= c <= 102 then Some(c - 87)
    else if 65 <= c <= 70 then Some(c - 55) else None
  }

  predicate AllHex(s: seq<byte>) {
    forall i :: 0 <= i < |s| ==> HexDigit(s[i]).Some?
  }

  function HexValue(s: seq<byte>): nat
    requires AllHex(s)
  {
    if s == [] then 0
    else
      assert HexDigit(s[|s| - 1]).Some?;
      16 * HexValue(s[..|s| - 1]) + HexDigit(s[|s| - 1]).value
  }

  lemma HexMore(s: seq<byte>, c: byte)
    requires AllHex(s) && HexDigit(c).Some?
    ensures AllHex(s + [c]) && HexValue(s + [c]) == 16 * HexValue(s) + HexDigit(c).value
  {
    assert (s + [c])[..|s|] == s;
  }

  function Pow16(n: nat): nat {
    if n == 0 then 1 else 16 * Pow16(n - 1)
  }

  /** The low `width` digits of v, in lower case. */
  function Hex(v: nat, width: nat): (s: seq<byte>)
    ensures |s| == width && AllHex(s) && 0 !in s
  {
    if width == 0 then []
    else Hex(v / 16, width - 1) + [if v % 16 < 10 then 48 + v % 16 else 87 + v % 16]
  }

  lemma {:induction false} HexRead(v: nat, width: nat)
    requires v < Pow16(width)
    ensures HexValue(Hex(v, width)) == v
  {
    if width > 0 {
      HexRead(v / 16, width - 1);
      assert Hex(v, width)[..width - 1] == Hex(v / 16, width - 1);
    }
  }

  /** A number behind 0x. */
  function Prefixed(v: nat, width: nat): (t: CText)
    requires width <= 16
  {
    var t: seq<byte> := [48, 120] + Hex(v, width);
    t
  }

  // ---- PCI addresses -----------------------------------------------------------------------------------

  /** What the driver says about the bus: its numbers, and two texts that should agree with them. */
  datatype Pci = Pci(domain: u32, bus: u32, device: u32, ids: u32, busId: Buffer, busIdLegacy: Buffer)

  const COLON: byte := 58
  const DOT: byte := 46

  /** Where field k starts when the domain has w digits, how many digits it has, and what follows it. */
  function FieldStart(w: nat, k: nat): nat
    requires k < 4
  {
    if k == 0 then 0 else if k == 1 then w + 1 else if k == 2 then w + 4 else w + 7
  }

  function FieldWidth(w: nat, k: nat): nat
    requires k < 4
  {
    if k == 0 then w else if k == 3 then 1 else 2
  }

  function FieldText(t: seq<byte>, k: nat): (s: seq<byte>)
    requires k < 4 && |t| >= 8
  {
    t[FieldStart(|t| - 8, k)..FieldStart(|t| - 8, k) + FieldWidth(|t| - 8, k)]
  }

  predicate GoodField(t: seq<byte>, k: nat)
    requires k < 4 && |t| >= 8
  {
    AllHex(FieldText(t, k)) && (k < 3 ==>
      t[FieldStart(|t| - 8, k) + FieldWidth(|t| - 8, k)] == if k == 2 then DOT else COLON)
  }

  /** Four or eight digits of domain, two of bus, two of device and one of function. */
  predicate Address(t: seq<byte>) {
    |t| in {12, 16} && GoodField(t, 0) && GoodField(t, 1) && GoodField(t, 2) && GoodField(t, 3)
  }

  function AddressField(t: seq<byte>, k: nat): nat
    requires Address(t) && k < 4
  {
    assert GoodField(t, k);
    HexValue(FieldText(t, k))
  }

  function Printed(domain: nat, bus: nat, device: nat, function_: nat): (t: CText)
    ensures |t| == 12
  {
    var t: seq<byte> := Hex(domain, 4) + [COLON] + Hex(bus, 2) + [COLON] + Hex(device, 2) + [DOT] + Hex(function_, 1);
    t
  }

  datatype Located = Malformed | Foreign | Confirmed(text: CText)

  /** An address text in the light of the driver's numbers. */
  function Locate(b: Buffer, pci: Pci): Located {
    var t := TextOf(b);
    if CLength(b) == |b| || !Address(t) then Malformed
    else if AddressField(t, 0) > 0xffff || AddressField(t, 1) > 0xff || AddressField(t, 2) > 0x1f || AddressField(t, 3) > 7
      || AddressField(t, 0) != pci.domain || AddressField(t, 1) != pci.bus || AddressField(t, 2) != pci.device then Foreign
    else Confirmed(Printed(AddressField(t, 0), AddressField(t, 1), AddressField(t, 2), AddressField(t, 3)))
  }

  /** The digits of one field; none as soon as a character is no digit. */
  method ReadField(b: Buffer, start: nat, width: nat) returns (value: Option<nat>)
    requires start + width <= |b|
    ensures value.Some? <==> AllHex(b[start..start + width])
    ensures value.Some? ==> value.value == HexValue(b[start..start + width])
  {
    var v := 0;
    for i := 0 to width
      invariant AllHex(b[start..start + i]) && v == HexValue(b[start..start + i])
    {
      var digit := HexDigit(b[start + i]);
      if digit.None? {
        assert b[start..start + width][i] == b[start + i];
        return None;
      }
      HexMore(b[start..start + i], b[start + i]);
      assert b[start..start + i + 1] == b[start..start + i] + [b[start + i]];
      v := v * 16 + digit.value;
    }
    return Some(v);
  }

  lemma FieldOf(b: Buffer, k: nat)
    requires CLength(b) in {12, 16} && k < 4
    ensures var (w, t) := (CLength(b) - 8, TextOf(b));
      FieldText(t, k) == b[FieldStart(w, k)..FieldStart(w, k) + FieldWidth(w, k)]
      && (k < 3 ==> t[FieldStart(w, k) + FieldWidth(w, k)] == b[FieldStart(w, k) + FieldWidth(w, k)])
  {
    hide CLength;
    var (w, t) := (CLength(b) - 8, TextOf(b));
    var (start, end) := (FieldStart(w, k), FieldStart(w, k) + FieldWidth(w, k));
    assert end <= |t| && t[start..end] == b[start..end];
  }

  /** One wrong field is enough. */
  lemma NoAddress(t: seq<byte>, field: nat)
    requires |t| in {12, 16} && field < 4 && !GoodField(t, field)
    ensures !Address(t)
  {
    assert field in {0, 1, 2, 3};
  }

  /** Reads field by field and stops at the first wrong character. */
  method ReadAddress(b: Buffer) returns (values: Option<seq<nat>>)
    requires CLength(b) in {12, 16}
    ensures values.Some? <==> Address(TextOf(b))
    ensures values.Some? ==>
      |values.value| == 4 && forall k :: 0 <= k < 4 ==> values.value[k] == AddressField(TextOf(b), k)
  {
    var length := CLength(b);
    ghost var t := TextOf(b);
    var widths, separators, read: seq<nat> := [length - 8, 2, 2, 1], [COLON, COLON, DOT], [0, 0, 0, 0];
    var position := 0;
    hide HexValue, AllHex, CLength, FieldText;
    for field := 0 to 4
      invariant |read| == 4 && position == if field < 4 then FieldStart(length - 8, field) else length
      invariant forall k :: 0 <= k < field ==> GoodField(t, k) && read[k] == HexValue(FieldText(t, k))
    {
      FieldOf(b, field);
      var value := ReadField(b, position, widths[field]);
      if value.None? {
        NoAddress(t, field);
        return None;
      }
      read := read[field := value.value];
      position := position + widths[field];
      if field < 3 {
        if b[position] != separators[field] {
          NoAddress(t, field);
          return None;
        }
        position := position + 1;
      }
    }
    assert GoodField(t, 0) && GoodField(t, 1) && GoodField(t, 2) && GoodField(t, 3);
    values := Some(read);
  }

  lemma Lengths(b: Buffer)
    ensures Address(TextOf(b)) ==> CLength(b) in {12, 16}
  {}

  /** `pci_address`: an address text that must agree with the numbers beside it. */
  method PciAddress(b: Buffer, pci: Pci) returns (r: Located)
    ensures r == Locate(b, pci)
  {
    hide Address, GoodField, FieldText, CLength, Printed, AddressField;
    var length := CLength(b);
    if length == |b| || (length != 12 && length != 16) {
      Lengths(b);
      return Malformed;
    }
    var read := ReadAddress(b);
    if read.None? { return Malformed; }
    var values := read.value;
    if values[0] > 0xffff || values[1] > 0xff || values[2] > 0x1f || values[3] > 7
      || values[0] != pci.domain || values[1] != pci.bus || values[2] != pci.device { return Foreign; }
    r := Confirmed(Printed(values[0], values[1], values[2], values[3]));
  }

  lemma PrintedFields(domain: nat, bus: nat, device: nat, function_: nat)
    ensures var t := Printed(domain, bus, device, function_);
      Address(t) && FieldText(t, 0) == Hex(domain, 4) && FieldText(t, 1) == Hex(bus, 2)
      && FieldText(t, 2) == Hex(device, 2) && FieldText(t, 3) == Hex(function_, 1)
  {
    hide Hex, HexValue, AllHex;
    var t := Printed(domain, bus, device, function_);
    assert FieldText(t, 0) == Hex(domain, 4) && FieldText(t, 1) == Hex(bus, 2);
    assert FieldText(t, 2) == Hex(device, 2) && FieldText(t, 3) == Hex(function_, 1);
  }

  /** A published address names the domain, bus and device the driver gave as numbers, and is an address
      again that reads back as them. */
  lemma LocatedReadsBack(b: Buffer, pci: Pci)
    requires Locate(b, pci).Confirmed?
    ensures var t := Locate(b, pci).text;
      Address(t) && AddressField(t, 0) == pci.domain && AddressField(t, 1) == pci.bus && AddressField(t, 2) == pci.device
      && AddressField(t, 3) == AddressField(TextOf(b), 3)
  {
    hide HexValue, AllHex, Hex;
    var (t, f) := (Locate(b, pci).text, AddressField(TextOf(b), 3));
    PrintedFields(pci.domain, pci.bus, pci.device, f);
    assert Pow16(1) == 16 && Pow16(2) == 256 && Pow16(4) == 256 * Pow16(2);
    HexRead(pci.domain, 4);
    HexRead(pci.bus, 2);
    HexRead(pci.device, 2);
    HexRead(f, 1);
  }

  /** The current text is asked first, the legacy text only when that is no address at all. */
  function BusAddress(pci: Pci): Located {
    var first := Locate(pci.busId, pci);
    if first.Malformed? then Locate(pci.busIdLegacy, pci) else first
  }
}

/** The reply as the parent reads it: under which name it finds what, in terms of the driver's answers alone.
    The results below speak of names and answers, not of the functions that put the tables together. */
module NvmlFields {
  import opened Bytes
  import opened GpuWire
  import opened GpuReplay
  import opened GpuOutput
  import opened NvmlText
  import opened Decimals
  import opened NvmlDevice
  import opened NvmlCollect
  import P = NvmlProcesses

  // ---- Tables filled name by name ----------------------------------------------------------------------------

  function Lookup(t: Frame, name: string): Option<Value> {
    if Name(Ascii(name)) in t then Some(t[Name(Ascii(name))]) else None
  }

  /** A table with the first n of these names, as far as they have a value. */
  function Filled(names: seq<string>, values: seq<Option<Value>>, n: nat): Frame
    requires n <= |names| == |values|
  {
    if n == 0 then map[] else With(Filled(names, values, n - 1), names[n - 1], values[n - 1])
  }

  predicate Names(names: seq<string>) {
    (forall i :: 0 <= i < |names| ==> GoodName(names[i]))
    && forall i, j :: 0 <= i < j < |names| ==> names[i] != names[j]
  }

  /** Different names have different keys. */
  lemma OtherKey(a: string, b: string)
    requires a != b && GoodName(a) && GoodName(b)
    ensures Ascii(a) != Ascii(b)
  {
    if |a| == |b| {
      var k :| 0 <= k < |a| && a[k] != b[k];
      assert Ascii(b)[k] != Ascii(a)[k];
    }
  }

  /** Each name is found with its value, and nothing else is there. */
  lemma {:induction false} FilledAt(names: seq<string>, values: seq<Option<Value>>, k: nat, n: nat)
    requires k < |names| == |values| && n <= |names| && Names(names)
    ensures Lookup(Filled(names, values, n), names[k]) == if k < n then values[k] else None
  {
    hide GoodName, Ascii;
    if n > 0 {
      FilledAt(names, values, k, n - 1);
      if k != n - 1 { OtherKey(names[k], names[n - 1]); }
    }
  }

  lemma {:induction false} NothingElse(names: seq<string>, values: seq<Option<Value>>, n: nat, key: Key)
    requires n <= |names| == |values| && key in Filled(names, values, n)
    ensures exists k :: 0 <= k < n && key == Name(Ascii(names[k]))
  {
    if n > 0 && key != Name(Ascii(names[n - 1])) { NothingElse(names, values, n - 1, key); }
  }

  // ---- The table of a device -----------------------------------------------------------------------------------

  datatype View = View(d: Device, index: u32, uuid: CText, processes: bool, previous: u64, detail: Detail)

  const DEVICE_NAMES: seq<string> := [
    "index", "uuid", "name",
    "pci_bdf", "vendor_id", "device_id",
    "utilization_percent", "memory_utilization_percent",
    "memory_total_bytes", "memory_used_bytes", "temperature_celsius",
    "power_instant_quality", "power_instant_watts", "power_instant_timestamp_us",
    "power_average_quality", "power_average_watts", "power_average_interval_ns", "power_average_timestamp_us",
    "power_watts", "power_measurement", "power_quality", "power_interval_ns", "power_limit_watts",
    "pcie_current_generation", "pcie_current_width", "pcie_maximum_generation", "pcie_maximum_width",
    "pcie_tx_kilobytes_per_second", "pcie_rx_kilobytes_per_second", "pcie_throughput_interval_ns",
    "graphics_clock_hz", "memory_clock_hz", "graphics_clock_maximum_hz",
    "fan_speed_percent", "performance_state", "clock_events",
    "processes", "processes_truncated"]

  function IdentityValue(v: View, k: nat): Option<Value> {
    var (pci, address) := (v.d.pci, if v.d.pci.Some? then BusAddress(v.d.pci.value) else Malformed);
    var ids := if v.d.pci.Some? && v.d.pci.value.ids != P.UINT_MAX then Some(v.d.pci.value.ids) else None;
    if k == 0 then Some(IntegerValue(v.index))
    else if k == 1 then Words(if v.uuid != [] then Some(v.uuid) else None)
    else if k == 2 then Words(Queried(v.d.name))
    else if k == 3 then Words(if address.Confirmed? then Some(address.text) else None)
    else if k == 4 then Words(if ids.Some? then Some(Prefixed(ids.value % 0x1_0000, 4)) else None)
    else Words(if ids.Some? then Some(Prefixed(ids.value / 0x1_0000, 4)) else None)
  }

  function UseValue(v: View, k: nat): Option<Value> {
    var use := v.d.utilization;
    if k == 6 then Integral(AtMost(if use.Some? then Some(use.value.0) else None, 100))
    else if k == 7 then Integral(AtMost(if use.Some? then Some(use.value.1) else None, 100))
    else if k == 8 then Integral(TotalBytes(v.d.memory))
    else if k == 9 then Integral(UsedBytes(v.d.memory))
    else Integral(AtMost(v.d.temperature, 999))
  }

  function FieldValue(v: View, k: nat): Option<Value> {
    var f := if k < 14 then Instant(v.d.power) else Average(v.d.power);
    if f.None? then None
    else if k == 11 || k == 14 then Some(TextValue(QualityOf(f).value.Word()))
    else if k == 12 || k == 15 then Some(NumberValue(f.value.bits))
    else if k == 16 then Some(IntegerValue(1000000000))
    else if f.value.timestamp > 0 then Some(IntegerValue(f.value.timestamp)) else None
  }

  function PowerValue(v: View, k: nat): Option<Value> {
    var (h, limit) := (Headline(v.d.power), v.d.power.limit);
    if k == 22 then (
      if limit.Some? && 0 < limit.value.raw < 100000000 then Some(NumberValue(limit.value.bits)) else None)
    else if h.None? then None
    else if k == 18 then Some(NumberValue(h.value.watts))
    else if k == 19 then Some(TextValue(Ascii(h.value.measurement)))
    else if k == 20 then Some(TextValue(h.value.quality.Word()))
    else if h.value.interval then Some(IntegerValue(1000000000)) else None
  }

  function PcieValue(v: View, k: nat): Option<Value>
    requires 23 <= k
  {
    var (sent, received) := (Rate(v.d.pcie.sent), Rate(v.d.pcie.received));
    if k < 27 then Integral(LinkValue(v.d.pcie, k - 23))
    else if k == 27 then Integral(sent)
    else if k == 28 then Integral(received)
    else if sent.Some? || received.Some? then Some(IntegerValue(20000000)) else None
  }

  function StateValue(v: View, k: nat): Option<Value> {
    var c := v.d.clocks;
    if k == 30 then Double(Hertz(c.graphics, 0))
    else if k == 31 then Double(Hertz(c.memory, 0))
    else if k == 32 then Double(Hertz(c.maximum, 1))
    else if k == 33 then Integral(AtMost(c.fan, 100))
    else if k == 34 then Words(if AtMost(c.state, 15).Some? then Some(StateText(c.state.value)) else None)
    else Some(TableValue(EventsTable(v.d.events)))
  }

  function ProcessValue(v: View, k: nat): Option<Value> {
    if !v.processes then None
    else if k == 36 then Some(TableValue(RowsTable(v.detail.rows, v.detail.records, v.previous)))
    else Some(BooleanValue(v.detail.truncated))
  }

  function DeviceValue(v: View, k: nat): Option<Value> {
    if k < 6 then IdentityValue(v, k)
    else if k < 11 then UseValue(v, k)
    else if k < 18 then FieldValue(v, k)
    else if k < 23 then PowerValue(v, k)
    else if k < 30 then PcieValue(v, k)
    else if k < 36 then StateValue(v, k) else ProcessValue(v, k)
  }

  function DeviceValues(v: View): (s: seq<Option<Value>>)
    ensures |s| == |DEVICE_NAMES|
  {
    seq(38, k requires 0 <= k < 38 => DeviceValue(v, k))
  }

  function Up(v: View, n: nat): Frame
    requires n <= 38
  {
    Filled(DEVICE_NAMES, DeviceValues(v), n)
  }

  lemma Next(v: View, n: nat)
    requires n < 38
    ensures Up(v, n + 1) == With(Up(v, n), DEVICE_NAMES[n], DeviceValue(v, n))
  {}

  lemma Empty(v: View)
    ensures Up(v, 0) == map[]
  {}

  lemma IdentityNames()
    ensures DEVICE_NAMES[0] == "index" && DEVICE_NAMES[1] == "uuid" && DEVICE_NAMES[2] == "name"
    ensures DEVICE_NAMES[3] == "pci_bdf" && DEVICE_NAMES[4] == "vendor_id" && DEVICE_NAMES[5] == "device_id"
  {}

  lemma UseNames()
    ensures DEVICE_NAMES[6] == "utilization_percent" && DEVICE_NAMES[7] == "memory_utilization_percent"
    ensures DEVICE_NAMES[8] == "memory_total_bytes" && DEVICE_NAMES[9] == "memory_used_bytes"
    ensures DEVICE_NAMES[10] == "temperature_celsius"
  {}

  lemma FieldNames()
    ensures DEVICE_NAMES[11] == "power_instant_quality" && DEVICE_NAMES[12] == "power_instant_watts"
    ensures DEVICE_NAMES[13] == "power_instant_timestamp_us" && DEVICE_NAMES[14] == "power_average_quality"
    ensures DEVICE_NAMES[15] == "power_average_watts" && DEVICE_NAMES[16] == "power_average_interval_ns"
    ensures DEVICE_NAMES[17] == "power_average_timestamp_us"
  {}

  lemma PowerNames()
    ensures DEVICE_NAMES[18] == "power_watts" && DEVICE_NAMES[19] == "power_measurement"
    ensures DEVICE_NAMES[20] == "power_quality" && DEVICE_NAMES[21] == "power_interval_ns"
    ensures DEVICE_NAMES[22] == "power_limit_watts"
  {}

  lemma PcieNames()
    ensures DEVICE_NAMES[23] == "pcie_current_generation" && DEVICE_NAMES[24] == "pcie_current_width"
    ensures DEVICE_NAMES[25] == "pcie_maximum_generation" && DEVICE_NAMES[26] == "pcie_maximum_width"
    ensures DEVICE_NAMES[27] == "pcie_tx_kilobytes_per_second"
    ensures DEVICE_NAMES[28] == "pcie_rx_kilobytes_per_second"
    ensures DEVICE_NAMES[29] == "pcie_throughput_interval_ns"
  {}

  lemma StateNames()
    ensures DEVICE_NAMES[30] == "graphics_clock_hz" && DEVICE_NAMES[31] == "memory_clock_hz"
    ensures DEVICE_NAMES[32] == "graphics_clock_maximum_hz" && DEVICE_NAMES[33] == "fan_speed_percent"
    ensures DEVICE_NAMES[34] == "performance_state" && DEVICE_NAMES[35] == "clock_events"
  {}

  lemma ProcessNames()
    ensures DEVICE_NAMES[36] == "processes" && DEVICE_NAMES[37] == "processes_truncated"
  {}

  lemma UpNames(v: View)
    requires v.index < MAX_DEVICES
    ensures Up(v, 3) == AddNames(map[], Queried(v.d.name), v.index, v.uuid)
  {
    hide DEVICE_NAMES;
    IdentityNames();
    hide Up, Queried, Ascii;
    Empty(v);
    Next(v, 0);
    Next(v, 1);
    Next(v, 2);
  }

  lemma UpPci(v: View)
    ensures Up(v, 6) == AddPci(Up(v, 3), v.d.pci)
  {
    hide DEVICE_NAMES;
    IdentityNames();
    hide Up, Set, BusAddress, Prefixed;
    Next(v, 3);
    Next(v, 4);
    Next(v, 5);
  }

  lemma UpUse(v: View)
    ensures Up(v, 11) == AddMemory(AddUtilization(Up(v, 6), v.d.utilization), v.d.memory, v.d.temperature)
  {
    hide DEVICE_NAMES;
    UseNames();
    hide Up, Set;
    Next(v, 6);
    Next(v, 7);
    Next(v, 8);
    Next(v, 9);
    Next(v, 10);
  }

  lemma UpFields(v: View)
    ensures Up(v, 18) == AddFields(Up(v, 11), v.d.power)
  {
    hide DEVICE_NAMES;
    FieldNames();
    hide Up, Set, FieldUsable, Freshness, Quality.Word;
    Next(v, 11);
    Next(v, 12);
    Next(v, 13);
    Next(v, 14);
    Next(v, 15);
    Next(v, 16);
    Next(v, 17);
  }

  lemma UpPower(v: View)
    ensures Up(v, 23) == AddLimit(AddHeadline(Up(v, 18), v.d.power), v.d.power)
  {
    hide DEVICE_NAMES;
    PowerNames();
    hide Up, Set, Headline, Quality.Word, Ascii;
    Next(v, 18);
    Next(v, 19);
    Next(v, 20);
    Next(v, 21);
    Next(v, 22);
  }

  lemma UpPcie(v: View)
    ensures Up(v, 30) == AddRates(AddLinks(Up(v, 23), v.d.pcie, 4), v.d.pcie)
  {
    hide DEVICE_NAMES;
    PcieNames();
    hide Up, Set, LinkValue;
    Next(v, 23);
    Next(v, 24);
    Next(v, 25);
    Next(v, 26);
    Next(v, 27);
    Next(v, 28);
    Next(v, 29);
    assert AddLinks(Up(v, 23), v.d.pcie, 1) == Up(v, 24);
    assert AddLinks(Up(v, 23), v.d.pcie, 2) == Up(v, 25);
    assert AddLinks(Up(v, 23), v.d.pcie, 3) == Up(v, 26);
    assert AddLinks(Up(v, 23), v.d.pcie, 4) == Up(v, 27);
  }

  lemma UpState(v: View)
    ensures Up(v, 36) == Set(AddState(AddClocks(Up(v, 30), v.d.clocks), v.d.clocks), "clock_events",
      TableValue(EventsTable(v.d.events)))
  {
    hide DEVICE_NAMES;
    StateNames();
    hide Up, Set, EventsTable, StateText;
    Next(v, 30);
    Next(v, 31);
    Next(v, 32);
    Next(v, 33);
    Next(v, 34);
    Next(v, 35);
  }

  lemma UpProcesses(v: View)
    ensures Up(v, 38) == if v.processes then AddProcesses(Up(v, 36), v.detail, v.previous) else Up(v, 36)
  {
    hide DEVICE_NAMES;
    ProcessNames();
    hide Up, Set, RowsTable;
    Next(v, 36);
    Next(v, 37);
  }

  lemma UpAll(v: View)
    requires v.index < MAX_DEVICES
    ensures Up(v, 38) == DeviceTable(v.d, v.index, v.uuid, v.processes, v.previous, v.detail)
  {
    hide DEVICE_NAMES, Up, Set, AddNames, AddPci, AddUtilization, AddMemory, AddFields, AddHeadline, AddLimit, AddLinks, AddRates;
    hide AddClocks, AddState, AddProcesses, EventsTable;
    UpNames(v);
    UpPci(v);
    UpUse(v);
    UpFields(v);
    UpPower(v);
    UpPcie(v);
    UpState(v);
    UpProcesses(v);
  }

  lemma GoodDeviceNames()
    ensures forall i :: 0 <= i < 38 ==> GoodName(DEVICE_NAMES[i])
  {
    forall i | 0 <= i < 38 ensures GoodName(DEVICE_NAMES[i]) {
      hide GoodName;
      IdentityKeys();
      UtilizationKeys();
      MemoryKeys();
      InstantKeys();
      AverageKeys();
      PublishedPowerKeys();
      LimitKeys();
      LinkKeys();
      RateKeys();
      IntervalKey();
      ClockKeys();
      StateKeys();
      MaskKeys();
      RowKeys();
    }
  }

  lemma DistinctFirst()
    ensures forall i, j :: 0 <= i < j < 27 ==> DEVICE_NAMES[i] != DEVICE_NAMES[j]
  {}

  lemma DistinctLast()
    ensures forall i, j :: 0 <= i < j && 27 <= j < 38 ==> DEVICE_NAMES[i] != DEVICE_NAMES[j]
  {}

  lemma DeviceNamesFit()
    ensures Names(DEVICE_NAMES)
  {
    GoodDeviceNames();
    DistinctFirst();
    DistinctLast();
  }

  function ViewOf(driver: Driver, i: nat, processes: bool, cursors: seq<Cursor>, detail: Detail): View
    requires Answers(driver, i) && i < MAX_DEVICES
  {
    View(driver.devices[i].value, i, Uuid(driver, i), processes, Previous(cursors, Uuid(driver, i)), detail)
  }

  lemma Reads(driver: Driver, i: nat, processes: bool, cursors: seq<Cursor>, detail: Detail, k: nat)
    requires Answers(driver, i) && i < MAX_DEVICES && k < 38
    ensures Lookup(ReportOf(driver, i, processes, cursors, detail), DEVICE_NAMES[k])
      == DeviceValue(ViewOf(driver, i, processes, cursors, detail), k)
  {
    hide Lookup, DeviceTable, DEVICE_NAMES, Names, DeviceValue, Filled, Previous, Uuid;
    var v := ViewOf(driver, i, processes, cursors, detail);
    UpAll(v);
    DeviceNamesFit();
    FilledAt(DEVICE_NAMES, DeviceValues(v), k, 38);
  }

  /** The table of a device has no other fields. */
  lemma NoOtherFields(driver: Driver, i: nat, processes: bool, cursors: seq<Cursor>, detail: Detail, key: Key)
    requires Answers(driver, i) && i < MAX_DEVICES && key in ReportOf(driver, i, processes, cursors, detail)
    ensures exists k :: 0 <= k < |DEVICE_NAMES| && key == Name(Ascii(DEVICE_NAMES[k]))
  {
    hide DeviceTable, DEVICE_NAMES, DeviceValue, Filled, Previous, Uuid;
    var v := ViewOf(driver, i, processes, cursors, detail);
    UpAll(v);
    NothingElse(DEVICE_NAMES, DeviceValues(v), 38, key);
  }

  // ---- What each field says ------------------------------------------------------------------------------------

  /** The driver answered a query with this text: not empty, and terminated inside the buffer. */
  predicate Answered(reply: Option<Buffer>, text: seq<byte>) {
    reply.Some? && text != [] && 0 !in text && text + [0] <= reply.value
  }

  lemma {:induction false} CLengthOf(b: seq<byte>, text: seq<byte>)
    requires 0 !in text && text + [0] <= b
    ensures CLength(b) == |text|
  {
    if text != [] {
      assert b[0] == (text + [0])[0] == text[0];
      assert text[1..] + [0] == (text + [0])[1..];
      CLengthOf(b[1..], text[1..]);
    } else {
      assert b[0] == ([] + [0])[0];
    }
  }

  lemma QueriedMeans(reply: Option<Buffer>, text: CText)
    ensures Queried(reply) == Some(text) <==> Answered(reply, text)
  {
    if Answered(reply, text) {
      CLengthOf(reply.value, text);
      assert reply.value[..|text|] == (text + [0])[..|text|] == text;
    }
    if Queried(reply) == Some(text) {
      assert text + [0] == reply.value[..CLength(reply.value) + 1];
    }
  }

  lemma IdentityFields(driver: Driver, i: nat, processes: bool, cursors: seq<Cursor>, detail: Detail, text: CText)
    requires Answers(driver, i) && i < MAX_DEVICES
    ensures var (t, d) := (ReportOf(driver, i, processes, cursors, detail), driver.devices[i].value);
      Lookup(t, "index") == Some(IntegerValue(i))
      && (Lookup(t, "uuid") == Some(TextValue(text)) <==> Answered(d.uuid, text) && |text| < 128)
      && (Lookup(t, "name") == Some(TextValue(text)) <==> Answered(d.name, text))
  {
    hide Lookup, ReportOf, DEVICE_NAMES, CLength, Queried, Previous;
    IdentityNames();
    Reads(driver, i, processes, cursors, detail, 0);
    Reads(driver, i, processes, cursors, detail, 1);
    Reads(driver, i, processes, cursors, detail, 2);
    var d := driver.devices[i].value;
    QueriedMeans(d.uuid, text);
    QueriedMeans(d.name, text);
  }

  lemma UtilizationFields(driver: Driver, i: nat, processes: bool, cursors: seq<Cursor>, detail: Detail)
    requires Answers(driver, i) && i < MAX_DEVICES
    ensures var (t, use) := (ReportOf(driver, i, processes, cursors, detail), driver.devices[i].value.utilization);
      Lookup(t, "utilization_percent")
        == (if use.Some? && use.value.0 <= 100 then Some(IntegerValue(use.value.0)) else None)
      && Lookup(t, "memory_utilization_percent")
        == (if use.Some? && use.value.1 <= 100 then Some(IntegerValue(use.value.1)) else None)
  {
    hide Lookup, ReportOf, DEVICE_NAMES, Previous, Uuid;
    UseNames();
    Reads(driver, i, processes, cursors, detail, 6);
    Reads(driver, i, processes, cursors, detail, 7);
  }

  /** A total below 2^50 bytes, a use within that total, and a temperature below 1000. */
  lemma MemoryFields(driver: Driver, i: nat, processes: bool, cursors: seq<Cursor>, detail: Detail)
    requires Answers(driver, i) && i < MAX_DEVICES
    ensures var (t, d) := (ReportOf(driver, i, processes, cursors, detail), driver.devices[i].value);
      var (total, used) := (
        if d.memory.Some? && d.memory.value.total < 0x4_0000_0000_0000 then Some(d.memory.value.total) else None,
        if d.memory.Some? && d.memory.value.used <= d.memory.value.total < 0x4_0000_0000_0000 then Some(d.memory.value.used)
        else None);
      Lookup(t, "memory_total_bytes") == (if total.Some? then Some(IntegerValue(total.value)) else None)
      && Lookup(t, "memory_used_bytes") == (if used.Some? then Some(IntegerValue(used.value)) else None)
      && Lookup(t, "temperature_celsius")
        == (if d.temperature.Some? && d.temperature.value < 1000 then Some(IntegerValue(d.temperature.value)) else None)
  {
    hide Lookup, ReportOf, DEVICE_NAMES, Previous, Uuid;
    UseNames();
    Reads(driver, i, processes, cursors, detail, 8);
    Reads(driver, i, processes, cursors, detail, 9);
    Reads(driver, i, processes, cursors, detail, 10);
  }

  // ---- Addresses -----------------------------------------------------------------------------------------------

  /** A bus address in its four parts. */
  datatype Parts = Parts(domain: seq<byte>, bus: seq<byte>, device: seq<byte>, function_: seq<byte>)
  {
    predicate Sized() {
      |domain| in {4, 8} && |bus| == 2 && |device| == 2 && |function_| == 1
      && AllHex(domain) && AllHex(bus) && AllHex(device) && AllHex(function_)
    }

    function Joined(): seq<byte> {
      domain + Ascii(":") + bus + Ascii(":") + device + Ascii(".") + function_
    }

    /** The numbers are in range, and those the driver gave beside the text. */
    predicate Agrees(pci: Pci)
      requires Sized()
    {
      HexValue(domain) == pci.domain <= 0xffff && HexValue(bus) == pci.bus <= 0xff
      && HexValue(device) == pci.device <= 0x1f && HexValue(function_) <= 7
    }
  }

  ghost predicate IsAddress(b: Buffer) {
    exists a: Parts :: a.Sized() && Answered(Some(b), a.Joined())
  }

  lemma JoinedFields(a: Parts)
    requires a.Sized()
    ensures var t := a.Joined();
      |t| in {12, 16} && 0 !in t && Address(t) && FieldText(t, 0) == a.domain && FieldText(t, 1) == a.bus
      && FieldText(t, 2) == a.device && FieldText(t, 3) == a.function_
  {
    var t := a.Joined();
    assert FieldText(t, 0) == a.domain && FieldText(t, 1) == a.bus;
    assert FieldText(t, 2) == a.device && FieldText(t, 3) == a.function_;
    assert forall k :: 0 <= k < |t| && t[k] == 0 ==> HexDigit(t[k]).None?;
  }

  lemma AddressParts(t: seq<byte>)
    requires Address(t)
    ensures exists a: Parts :: a.Sized() && t == a.Joined()
  {
    hide AllHex;
    var a := Parts(FieldText(t, 0), FieldText(t, 1), FieldText(t, 2), FieldText(t, 3));
    assert a.Sized() && t == a.Joined();
  }

  lemma LocateParts(b: Buffer, pci: Pci, a: Parts)
    requires a.Sized() && Answered(Some(b), a.Joined())
    ensures Locate(b, pci) == if a.Agrees(pci)
      then Confirmed(Printed(pci.domain, pci.bus, pci.device, HexValue(a.function_))) else Foreign
  {
    hide CLength, HexValue, AllHex, Address, FieldText, Printed;
    JoinedFields(a);
    QueriedMeans(Some(b), a.Joined());
  }

  lemma LocateNone(b: Buffer, pci: Pci)
    requires !IsAddress(b)
    ensures Locate(b, pci).Malformed?
  {
    hide CLength, HexValue, AllHex, Address, FieldText, Printed;
    var t := TextOf(b);
    if CLength(b) < |b| && Address(t) {
      AddressParts(t);
      var a: Parts :| a.Sized() && t == a.Joined();
      QueriedMeans(Some(b), t);
    }
  }

  /** A number in a fixed number of lower-case hexadecimal digits. */
  predicate Writes(s: seq<byte>, width: nat, number: nat) {
    |s| == width && AllHex(s) && HexValue(s) == number && forall i :: 0 <= i < |s| ==> !(65 <= s[i] <= 70)
  }

  lemma {:induction false} HexWrites(v: nat, width: nat)
    requires v < Pow16(width)
    ensures Writes(Hex(v, width), width, v)
  {
    HexRead(v, width);
    if width > 0 { HexWrites(v / 16, width - 1); }
  }

  /** The first of the two address texts that is an address decides: if it agrees with the driver's numbers it is
      published with them, otherwise nothing is. The identifier's halves are written out in four digits. */
  lemma PciFields(driver: Driver, i: nat, processes: bool, cursors: seq<Cursor>, detail: Detail, a: Parts)
    requires Answers(driver, i) && i < MAX_DEVICES && a.Sized()
    ensures var (t, reply) := (ReportOf(driver, i, processes, cursors, detail), driver.devices[i].value.pci);
      reply.None? ==> Lookup(t, "pci_bdf") == Lookup(t, "vendor_id") == Lookup(t, "device_id") == None
    ensures var (t, reply) := (ReportOf(driver, i, processes, cursors, detail), driver.devices[i].value.pci);
      reply.Some? ==> (
        var (pci, first, second) := (reply.value, Some(reply.value.busId), Some(reply.value.busIdLegacy));
        var text := Parts(Hex(pci.domain, 4), Hex(pci.bus, 2), Hex(pci.device, 2), Hex(HexValue(a.function_), 1)).Joined();
        (Answered(first, a.Joined()) || (!IsAddress(pci.busId) && Answered(second, a.Joined())) ==>
          Lookup(t, "pci_bdf") == if a.Agrees(pci) then Some(TextValue(text)) else None)
        && (!IsAddress(pci.busId) && !IsAddress(pci.busIdLegacy) ==> Lookup(t, "pci_bdf") == None))
    ensures var (t, reply) := (ReportOf(driver, i, processes, cursors, detail), driver.devices[i].value.pci);
      reply.Some? ==> (
        var (vendor, device) := (Hex(reply.value.ids % 0x1_0000, 4), Hex(reply.value.ids / 0x1_0000, 4));
        Writes(vendor, 4, reply.value.ids % 0x1_0000) && Writes(device, 4, reply.value.ids / 0x1_0000)
        && Lookup(t, "vendor_id") == (if reply.value.ids != 0xFFFF_FFFF then Some(TextValue(Ascii("0x") + vendor)) else None)
        && Lookup(t, "device_id") == if reply.value.ids != 0xFFFF_FFFF then Some(TextValue(Ascii("0x") + device)) else None)
  {
    hide Lookup, ReportOf, DEVICE_NAMES, Previous, Uuid, CLength, HexValue, AllHex, Hex, Locate, Answered, Writes, IsAddress;
    IdentityNames();
    Reads(driver, i, processes, cursors, detail, 3);
    Reads(driver, i, processes, cursors, detail, 4);
    Reads(driver, i, processes, cursors, detail, 5);
    var reply := driver.devices[i].value.pci;
    if reply.Some? {
      var pci := reply.value;
      if Answered(Some(pci.busId), a.Joined()) { LocateParts(pci.busId, pci, a); }
      if Answered(Some(pci.busIdLegacy), a.Joined()) { LocateParts(pci.busIdLegacy, pci, a); }
      if !IsAddress(pci.busId) { LocateNone(pci.busId, pci); }
      if !IsAddress(pci.busIdLegacy) { LocateNone(pci.busIdLegacy, pci); }
      assert Pow16(2) == 256 && Pow16(4) == 256 * Pow16(2);
      HexWrites(pci.ids % 0x1_0000, 4);
      HexWrites(pci.ids / 0x1_0000, 4);
      assert Ascii(":") == [COLON] && Ascii(".") == [DOT] && Ascii("0x") == [48, 120];
    }
  }

  // ---- Power, link and state -----------------------------------------------------------------------------------

  function Says(text: string): Option<Value> {
    Some(TextValue(Ascii(text)))
  }

  /** How old a reading is: taken at most five seconds ago, earlier, or at a time that means nothing. */
  predicate Dated(quality: Option<Value>, timestamp: int64, clock: Option<int64>) {
    if timestamp <= 0 || clock.None? || timestamp > clock.value + 1000000 then quality == Says("gap")
    else if timestamp < clock.value - 5000000 then quality == Says("stale") else quality == Says("fresh")
  }

  lemma QualityDated(f: PowerField)
    ensures Dated(Some(TextValue(Freshness(f.timestamp, f.clock).Word())), f.timestamp, f.clock)
  {}

  /** The reading of the instant is published if the driver measured it, over the whole GPU, in a known format and
      as a number of milliwatts below 10^8. */
  lemma InstantFields(driver: Driver, i: nat, processes: bool, cursors: seq<Cursor>, detail: Detail)
    requires Answers(driver, i) && i < MAX_DEVICES
    ensures var (t, fields) := (ReportOf(driver, i, processes, cursors, detail), driver.devices[i].value.power.fields);
      if fields.Some? && fields.value.0.id == 186 && fields.value.0.scope == 0 && fields.value.0.status == 0
        && fields.value.0.kind <= 6 && fields.value.0.reading.Some? && 0.0 <= fields.value.0.reading.value < 100000000.0
      then
        var f := fields.value.0;
        Lookup(t, "power_instant_watts") == Some(NumberValue(f.bits))
        && Dated(Lookup(t, "power_instant_quality"), f.timestamp, f.clock)
        && Lookup(t, "power_instant_timestamp_us") == if f.timestamp > 0 then Some(IntegerValue(f.timestamp)) else None
      else
        Lookup(t, "power_instant_watts") == Lookup(t, "power_instant_quality")
          == Lookup(t, "power_instant_timestamp_us") == None
  {
    hide Lookup, ReportOf, DEVICE_NAMES, Previous, Uuid, Dated, Freshness, Quality.Word;
    FieldNames();
    Reads(driver, i, processes, cursors, detail, 11);
    Reads(driver, i, processes, cursors, detail, 12);
    Reads(driver, i, processes, cursors, detail, 13);
    var power := driver.devices[i].value.power;
    if Instant(power).Some? { QualityDated(Instant(power).value); }
  }

  /** The average over one second likewise. */
  lemma AverageFields(driver: Driver, i: nat, processes: bool, cursors: seq<Cursor>, detail: Detail)
    requires Answers(driver, i) && i < MAX_DEVICES
    ensures var (t, fields) := (ReportOf(driver, i, processes, cursors, detail), driver.devices[i].value.power.fields);
      if fields.Some? && fields.value.1.id == 185 && fields.value.1.scope == 0 && fields.value.1.status == 0
        && fields.value.1.kind <= 6 && fields.value.1.reading.Some? && 0.0 <= fields.value.1.reading.value < 100000000.0
      then
        var f := fields.value.1;
        Lookup(t, "power_average_watts") == Some(NumberValue(f.bits))
        && Dated(Lookup(t, "power_average_quality"), f.timestamp, f.clock)
        && Lookup(t, "power_average_interval_ns") == Some(IntegerValue(1000000000))
        && Lookup(t, "power_average_timestamp_us") == if f.timestamp > 0 then Some(IntegerValue(f.timestamp)) else None
      else
        Lookup(t, "power_average_watts") == Lookup(t, "power_average_quality")
          == Lookup(t, "power_average_interval_ns") == Lookup(t, "power_average_timestamp_us") == None
  {
    hide Lookup, ReportOf, DEVICE_NAMES, Previous, Uuid, Dated, Freshness, Quality.Word;
    FieldNames();
    Reads(driver, i, processes, cursors, detail, 14);
    Reads(driver, i, processes, cursors, detail, 15);
    Reads(driver, i, processes, cursors, detail, 16);
    Reads(driver, i, processes, cursors, detail, 17);
    var power := driver.devices[i].value.power;
    if Average(power).Some? { QualityDated(Average(power).value); }
  }

  lemma Words3()
    ensures Ascii("fresh")[0] != Ascii("gap")[0] && Ascii("fresh")[0] != Ascii("stale")[0]
    ensures Ascii("gap")[0] != Ascii("stale")[0]
  {}

  /** The headline is the reading of the instant, unless there is none or only the average is fresh; without either
      it is the device's own sample. */
  lemma HeadlineFields(driver: Driver, i: nat, processes: bool, cursors: seq<Cursor>, detail: Detail)
    requires Answers(driver, i) && i < MAX_DEVICES
    ensures var (t, power) := (ReportOf(driver, i, processes, cursors, detail), driver.devices[i].value.power);
      var (instant, average) := (Lookup(t, "power_instant_watts"), Lookup(t, "power_average_watts"));
      var (now, mean) := (Lookup(t, "power_instant_quality"), Lookup(t, "power_average_quality"));
      var (watts, measurement) := (Lookup(t, "power_watts"), Lookup(t, "power_measurement"));
      var (quality, interval) := (Lookup(t, "power_quality"), Lookup(t, "power_interval_ns"));
      if instant.Some? && (average.None? || now == Says("fresh") || mean != Says("fresh")) then
        watts == instant && measurement == Says("current") && quality == now && interval == None
      else if average.Some? then
        watts == average && measurement == Says("average") && quality == mean
        && interval == Some(IntegerValue(1000000000))
      else if power.plain.Some? && power.plain.value.raw < 100000000 then
        watts == Some(NumberValue(power.plain.value.bits)) && measurement == Says("device_sample")
        && quality == Says("fresh") && interval == None
      else watts == measurement == quality == interval == None
  {
    hide Lookup, ReportOf, DEVICE_NAMES, Previous, Uuid, Freshness, FieldUsable;
    Words3();
    hide Ascii;
    FieldNames();
    PowerNames();
    Reads(driver, i, processes, cursors, detail, 11);
    Reads(driver, i, processes, cursors, detail, 12);
    Reads(driver, i, processes, cursors, detail, 14);
    Reads(driver, i, processes, cursors, detail, 15);
    Reads(driver, i, processes, cursors, detail, 18);
    Reads(driver, i, processes, cursors, detail, 19);
    Reads(driver, i, processes, cursors, detail, 20);
    Reads(driver, i, processes, cursors, detail, 21);
  }

  lemma LimitField(driver: Driver, i: nat, processes: bool, cursors: seq<Cursor>, detail: Detail)
    requires Answers(driver, i) && i < MAX_DEVICES
    ensures var (t, limit) := (ReportOf(driver, i, processes, cursors, detail), driver.devices[i].value.power.limit);
      Lookup(t, "power_limit_watts")
        == if limit.Some? && 0 < limit.value.raw < 100000000 then Some(NumberValue(limit.value.bits)) else None
  {
    hide Lookup, ReportOf, DEVICE_NAMES, Previous, Uuid;
    PowerNames();
    Reads(driver, i, processes, cursors, detail, 22);
  }

  /** A driver's answer as it is published: within these bounds, or not at all. */
  function Within(answer: Option<u32>, least: u32, most: u32): Option<Value> {
    if answer.Some? && least <= answer.value <= most then Some(IntegerValue(answer.value)) else None
  }

  lemma PcieFields(driver: Driver, i: nat, processes: bool, cursors: seq<Cursor>, detail: Detail)
    requires Answers(driver, i) && i < MAX_DEVICES
    ensures var (t, pcie) := (ReportOf(driver, i, processes, cursors, detail), driver.devices[i].value.pcie);
      var (sent, received) := (Lookup(t, "pcie_tx_kilobytes_per_second"), Lookup(t, "pcie_rx_kilobytes_per_second"));
      Lookup(t, "pcie_current_generation") == Within(pcie.generation, 1, 32)
      && Lookup(t, "pcie_current_width") == Within(pcie.width, 0, 64)
      && Lookup(t, "pcie_maximum_generation") == Within(pcie.maxGeneration, 1, 32)
      && Lookup(t, "pcie_maximum_width") == Within(pcie.maxWidth, 0, 64)
      && sent == Within(pcie.sent, 0, 0xFFFF_FFFE) && received == Within(pcie.received, 0, 0xFFFF_FFFE)
      && Lookup(t, "pcie_throughput_interval_ns")
        == if sent.Some? || received.Some? then Some(IntegerValue(20000000)) else None
  {
    hide Lookup, ReportOf, DEVICE_NAMES, Previous, Uuid;
    PcieNames();
    Reads(driver, i, processes, cursors, detail, 23);
    Reads(driver, i, processes, cursors, detail, 24);
    Reads(driver, i, processes, cursors, detail, 25);
    Reads(driver, i, processes, cursors, detail, 26);
    Reads(driver, i, processes, cursors, detail, 27);
    Reads(driver, i, processes, cursors, detail, 28);
    Reads(driver, i, processes, cursors, detail, 29);
  }

  /** A clock in hertz, if the number of megahertz the driver gave is within these bounds. */
  function Clock(answer: Option<Measured>, least: nat, most: nat): Option<Value> {
    if answer.Some? && least <= answer.value.raw <= most then Some(NumberValue(answer.value.bits)) else None
  }

  lemma StateFields(driver: Driver, i: nat, processes: bool, cursors: seq<Cursor>, detail: Detail)
    requires Answers(driver, i) && i < MAX_DEVICES
    ensures var (t, c) := (ReportOf(driver, i, processes, cursors, detail), driver.devices[i].value.clocks);
      Lookup(t, "graphics_clock_hz") == Clock(c.graphics, 0, 99999)
      && Lookup(t, "memory_clock_hz") == Clock(c.memory, 0, 99999)
      && Lookup(t, "graphics_clock_maximum_hz") == Clock(c.maximum, 1, 99999)
      && Lookup(t, "fan_speed_percent") == Within(c.fan, 0, 100)
      && Lookup(t, "performance_state")
        == if c.state.Some? && c.state.value <= 15 then Some(TextValue(Ascii("P") + Print(c.state.value))) else None
  {
    hide Lookup, ReportOf, DEVICE_NAMES, Previous, Uuid, Print;
    StateNames();
    Reads(driver, i, processes, cursors, detail, 30);
    Reads(driver, i, processes, cursors, detail, 31);
    Reads(driver, i, processes, cursors, detail, 32);
    Reads(driver, i, processes, cursors, detail, 33);
    Reads(driver, i, processes, cursors, detail, 34);
    assert Ascii("P") == [80];
  }

  // ---- Clock events --------------------------------------------------------------------------------------------

  const EVENT_NAMES: seq<string> := [
    "status_code", "supported_status_code", "source", "supported_source", "raw_hex", "supported_hex"]

  function EventValue(a: Query, s: Query, k: nat): Option<Value> {
    if k == 0 then Some(IntegerValue(a.status))
    else if k == 1 then Some(IntegerValue(s.status))
    else if k == 2 then Some(TextValue(ActiveSource(a.older)))
    else if k == 3 then Some(TextValue(SupportedSource(s.older)))
    else if k == 4 then Words(if a.status == 0 then Some(Prefixed(a.mask, 16)) else None)
    else Words(if s.status == 0 then Some(Prefixed(s.mask, 16)) else None)
  }

  function EventValues(a: Query, s: Query): (r: seq<Option<Value>>)
    ensures |r| == |EVENT_NAMES|
  {
    seq(6, k requires 0 <= k < 6 => EventValue(a, s, k))
  }

  lemma EventNext(a: Query, s: Query, n: nat)
    requires n < 6
    ensures Filled(EVENT_NAMES, EventValues(a, s), n + 1)
      == With(Filled(EVENT_NAMES, EventValues(a, s), n), EVENT_NAMES[n], EventValue(a, s, n))
  {}

  lemma EventsUp(e: Events)
    ensures var (a, s) := (Asked(e.active), Asked(e.supported));
      EventsTable(e) == Filled(EVENT_NAMES, EventValues(a, s), 6)
  {
    hide Set, Prefixed, ActiveSource, SupportedSource, Asked;
    var (a, s) := (Asked(e.active), Asked(e.supported));
    EventNext(a, s, 0);
    EventNext(a, s, 1);
    EventNext(a, s, 2);
    EventNext(a, s, 3);
    EventNext(a, s, 4);
    EventNext(a, s, 5);
  }

  lemma EventNamesFit()
    ensures Names(EVENT_NAMES)
  {
    StatusKeys();
    MaskKeys();
    hide GoodName;
  }

  lemma EventReads(e: Events, k: nat)
    requires k < 6
    ensures Lookup(EventsTable(e), EVENT_NAMES[k]) == EventValue(Asked(e.active), Asked(e.supported), k)
  {
    hide Lookup, EVENT_NAMES, EventsTable, Names, EventValue, Filled, Asked;
    EventsUp(e);
    EventNamesFit();
    FilledAt(EVENT_NAMES, EventValues(Asked(e.active), Asked(e.supported)), k, 6);
  }

  /** The older entry point answers if it exists and the newer one is absent, unsupported or not found; no entry point
      at all is reported as not found. The mask is published only with a success. */
  predicate MaskSays(m: Mask, newer: string, older: string, status: Option<Value>, source: Option<Value>, hex: Option<Value>) {
    var fell := m.legacy.Some? && (m.current.None? || m.current.value.0 in {3, 13});
    var answer := if fell then m.legacy else m.current;
    status == Some(IntegerValue(if answer.Some? then answer.value.0 else 13))
    && source == Says(if fell then older else newer)
    && hex == (
      if answer.Some? && answer.value.0 == 0 then Some(TextValue(Ascii("0x") + Hex(answer.value.1, 16))) else None)
  }

  lemma QuerySays(a: Mask, s: Mask)
    ensures var (p, q) := (Asked(a), Asked(s));
      MaskSays(a, "nvmlDeviceGetCurrentClocksEventReasons", "nvmlDeviceGetCurrentClocksThrottleReasons",
        EventValue(p, q, 0), EventValue(p, q, 2), EventValue(p, q, 4))
      && MaskSays(s, "nvmlDeviceGetSupportedClocksEventReasons", "nvmlDeviceGetSupportedClocksThrottleReasons",
        EventValue(p, q, 1), EventValue(p, q, 3), EventValue(p, q, 5))
  {
    assert Ascii("0x") == [48, 120];
    hide Ascii, Hex;
  }

  lemma EventFields(driver: Driver, i: nat, processes: bool, cursors: seq<Cursor>, detail: Detail)
    requires Answers(driver, i) && i < MAX_DEVICES
    ensures var (t, events) := (ReportOf(driver, i, processes, cursors, detail), driver.devices[i].value.events);
      var found := Lookup(t, "clock_events");
      found.Some? && found.value.TableValue? && (
        var e := found.value.fields;
        MaskSays(events.active, "nvmlDeviceGetCurrentClocksEventReasons", "nvmlDeviceGetCurrentClocksThrottleReasons",
          Lookup(e, "status_code"), Lookup(e, "source"), Lookup(e, "raw_hex"))
        && MaskSays(events.supported,
          "nvmlDeviceGetSupportedClocksEventReasons", "nvmlDeviceGetSupportedClocksThrottleReasons",
          Lookup(e, "supported_status_code"), Lookup(e, "supported_source"), Lookup(e, "supported_hex")))
  {
    hide Lookup, ReportOf, DEVICE_NAMES, Previous, Uuid, EventsTable, MaskSays, EventValue, Asked;
    StateNames();
    Reads(driver, i, processes, cursors, detail, 35);
    var events := driver.devices[i].value.events;
    EventReads(events, 0);
    EventReads(events, 1);
    EventReads(events, 2);
    EventReads(events, 3);
    EventReads(events, 4);
    EventReads(events, 5);
    QuerySays(events.active, events.supported);
  }

  // ---- Processes -----------------------------------------------------------------------------------------------

  lemma ProcessFields(driver: Driver, i: nat, processes: bool, cursors: seq<Cursor>, detail: Detail)
    requires Answers(driver, i) && i < MAX_DEVICES
    ensures var (t, previous) := (ReportOf(driver, i, processes, cursors, detail), Previous(cursors, Uuid(driver, i)));
      if processes then
        Lookup(t, "processes") == Some(TableValue(RowsTable(detail.rows, detail.records, previous)))
        && Lookup(t, "processes_truncated") == Some(BooleanValue(detail.truncated))
      else Lookup(t, "processes") == Lookup(t, "processes_truncated") == None
  {
    hide Lookup, ReportOf, DEVICE_NAMES, Previous, Uuid, RowsTable;
    ProcessNames();
    Reads(driver, i, processes, cursors, detail, 36);
    Reads(driver, i, processes, cursors, detail, 37);
  }

  const ROW_NAMES: seq<string> := [
    "pid", "kind", "memory_bytes", "memory_quality", "memory_scope", "memory_contexts", "sm_percent", "memory_percent",
    "encoder_percent", "decoder_percent", "sample_timestamp_us", "sample_window"]

  function RowValue(r: P.Row, records: seq<P.Allocation>, previous: u64, k: nat): Option<Value> {
    if k == 0 then Some(IntegerValue(r.pid))
    else if k == 1 then Some(TextValue(RowKind(r)))
    else if k == 5 then Some(TableValue(ContextsTable(records, r.pid)))
    else if k < 5 then (
      if !r.hasMemory then None
      else if k == 2 then Some(IntegerValue(Signed(r.memory)))
      else if k == 3 then Some(TextValue(QualityText(r)))
      else Some(TextValue(ScopeText(r))))
    else if !r.hasSample then None
    else if k == 6 then Some(IntegerValue(r.sm))
    else if k == 7 then Some(IntegerValue(r.utilization))
    else if k == 8 then Some(IntegerValue(r.encoder))
    else if k == 9 then Some(IntegerValue(r.decoder))
    else if k == 10 then Some(IntegerValue(Signed(r.timestamp)))
    else Some(TextValue(WindowText(previous)))
  }

  function RowValues(r: P.Row, records: seq<P.Allocation>, previous: u64): (s: seq<Option<Value>>)
    ensures |s| == |ROW_NAMES|
  {
    seq(12, k requires 0 <= k < 12 => RowValue(r, records, previous, k))
  }

  lemma RowNext(r: P.Row, records: seq<P.Allocation>, previous: u64, n: nat)
    requires n < 12
    ensures var values := RowValues(r, records, previous);
      Filled(ROW_NAMES, values, n + 1) == With(Filled(ROW_NAMES, values, n), ROW_NAMES[n], RowValue(r, records, previous, n))
  {}

  lemma RowNames()
    ensures ROW_NAMES[0] == "pid" && ROW_NAMES[1] == "kind" && ROW_NAMES[2] == "memory_bytes"
    ensures ROW_NAMES[3] == "memory_quality" && ROW_NAMES[4] == "memory_scope" && ROW_NAMES[5] == "memory_contexts"
    ensures ROW_NAMES[6] == "sm_percent" && ROW_NAMES[7] == "memory_percent" && ROW_NAMES[8] == "encoder_percent"
    ensures ROW_NAMES[9] == "decoder_percent" && ROW_NAMES[10] == "sample_timestamp_us"
    ensures ROW_NAMES[11] == "sample_window"
  {}

  lemma RowUp(r: P.Row, records: seq<P.Allocation>, previous: u64)
    ensures RowTable(r, records, previous) == Filled(ROW_NAMES, RowValues(r, records, previous), 12)
  {
    assert Filled(ROW_NAMES, RowValues(r, records, previous), 0) == map[];
    RowNames();
    hide Filled, ROW_NAMES, Set, ContextsTable, RowKind, QualityText, ScopeText, WindowText, Signed;
    RowNext(r, records, previous, 0);
    RowNext(r, records, previous, 1);
    RowNext(r, records, previous, 2);
    RowNext(r, records, previous, 3);
    RowNext(r, records, previous, 4);
    RowNext(r, records, previous, 5);
    RowNext(r, records, previous, 6);
    RowNext(r, records, previous, 7);
    RowNext(r, records, previous, 8);
    RowNext(r, records, previous, 9);
    RowNext(r, records, previous, 10);
    RowNext(r, records, previous, 11);
  }

  lemma RowNamesFit()
    ensures Names(ROW_NAMES)
  {
    ContextKeys();
    RowKeys();
    SampleKeys();
    WindowKeys();
    hide GoodName;
  }

  lemma RowReads(r: P.Row, records: seq<P.Allocation>, previous: u64, k: nat)
    requires k < 12
    ensures Lookup(RowTable(r, records, previous), ROW_NAMES[k]) == RowValue(r, records, previous, k)
  {
    hide Lookup, ROW_NAMES, RowTable, Names, RowValue, Filled;
    RowUp(r, records, previous);
    RowNamesFit();
    FilledAt(ROW_NAMES, RowValues(r, records, previous), k, 12);
  }

  /** What a row says about the records of its process. */
  ghost predicate SumsUp(r: P.Row, records: seq<P.Allocation>) {
    r.sources == P.RowSources(records, r.pid)
    && (r.hasMemory <==> exists j: nat :: P.Sized(records, r.pid, j))
    && (r.hasWhole <==> exists j: nat :: P.Sized(records, r.pid, j) && P.OfDevice(records, j))
    && (r.estimated <==> P.Doubtful(records, r.pid))
    && (forall j: nat :: P.Sized(records, r.pid, j) ==> records[j].value.memory <= r.memory)
    && (r.hasMemory ==> exists j: nat :: P.Sized(records, r.pid, j) && records[j].value.memory == r.memory)
  }

  lemma SourcesKept(r: P.Row, records: seq<P.Allocation>)
    requires P.Summarises(r, records)
    ensures r.sources == P.RowSources(records, r.pid)
  {}

  lemma LargestSized(r: P.Row, records: seq<P.Allocation>)
    requires P.Summarises(r, records) && r.hasMemory
    ensures exists j: nat :: P.Sized(records, r.pid, j) && records[j].value.memory == P.Total(r).memory
  {
    hide P.Summarises, P.Total;
    P.TotalIsLargest(r, records);
    var j :| 0 <= j < |records| && records[j].value.pid == r.pid && records[j].value.memory == P.Total(r).memory;
    assert P.Sized(records, r.pid, j);
  }

  lemma TotalSumsUp(r: P.Row, records: seq<P.Allocation>)
    requires P.Summarises(r, records)
    ensures SumsUp(P.Total(r), records)
  {
    hide P.Summarises, P.RowSources, P.Doubtful;
    P.SizesMean(r, records);
    P.EstimatedMeans(r, records);
    P.TotalIsLargest(r, records);
    SourcesKept(r, records);
    if r.hasMemory {
      LargestSized(r, records);
    }
  }

  lemma {:induction false} NoSources(records: seq<P.Allocation>, pid: u32)
    requires forall j :: 0 <= j < |records| ==> records[j].value.pid != pid
    ensures P.RowSources(records, pid) == {}
  {
    P.CountsNone(records, pid);
  }

  /** A row added for a sample is about a process that no list named. */
  lemma SampledOnly(d: Device, previous: u64, detail: Detail, k: nat)
    requires Supported(d, previous, detail) && |detail.totals| <= k < |detail.rows|
    ensures forall j :: 0 <= j < |detail.records| ==> detail.records[j].value.pid != detail.rows[k].pid
  {
    hide P.Merged, P.Reported, P.Published, P.Sampled, P.AllSampled, P.Cut, P.Overflows, P.Delivered;
    forall j | 0 <= j < |detail.records| ensures detail.records[j].value.pid != detail.rows[k].pid {
      assert |detail.totals| < |detail.rows| <= P.MAX_PROCESSES && P.Covered(detail.totals, detail.records);
      assert P.HasRow(detail.totals, detail.records[j].value.pid);
      var i :| 0 <= i < |detail.totals| && detail.totals[i].pid == detail.records[j].value.pid;
      assert P.Untimed(detail.rows[i]).pid == P.Untimed(detail.totals[i]).pid;
    }
  }

  lemma SameSum(a: P.Row, b: P.Row, records: seq<P.Allocation>)
    requires SumsUp(a, records) && P.Untimed(a) == P.Untimed(b)
    ensures SumsUp(b, records)
  {
    assert P.Untimed(a).pid == a.pid && P.Untimed(b).pid == b.pid;
    assert P.Untimed(a).memory == a.memory && P.Untimed(b).memory == b.memory;
    assert P.Untimed(a).sources == a.sources && P.Untimed(b).sources == b.sources;
    assert P.Untimed(a).hasMemory == a.hasMemory && P.Untimed(b).hasMemory == b.hasMemory;
    assert P.Untimed(a).hasWhole == a.hasWhole && P.Untimed(b).hasWhole == b.hasWhole;
    assert P.Untimed(a).estimated == a.estimated && P.Untimed(b).estimated == b.estimated;
  }

  lemma RowSumsUp(d: Device, previous: u64, detail: Detail, k: nat)
    requires Supported(d, previous, detail) && k < |detail.rows|
    ensures SumsUp(detail.rows[k], detail.records)
  {
    hide P.Merged, P.Reported, P.Summarises, P.Sampled, P.AllSampled, P.Cut, P.Overflows, P.Delivered, P.Covered;
    var (r, records) := (detail.rows[k], detail.records);
    if k < |detail.totals| {
      assert P.Published(detail.totals[k], records);
      var s: P.Row :| P.Summarises(s, records) && detail.totals[k] == P.Total(s);
      TotalSumsUp(s, records);
      SameSum(detail.totals[k], r, records);
    } else {
      SampledOnly(d, previous, detail, k);
      NoSources(records, r.pid);
      assert P.Untimed(r) == P.EmptyRow(r.pid);
      forall j: nat ensures !P.Sized(records, r.pid, j) {}
    }
  }

  /** A list names this context of a process. */
  ghost predicate Lists(values: seq<P.Process>, p: P.Process) {
    exists i :: 0 <= i < |values| && P.SameContext(values[i], p)
  }

  /** Which of the two lists named something. */
  predicate KindSays(kind: Option<Value>, compute: bool, graphics: bool) {
    kind == Says(
      if compute && graphics then "compute+graphics"
      else if compute then "compute" else if graphics then "graphics" else "sampled")
  }

  /** The size is the largest of the process's records below 2^50 bytes, an estimate if doubtful. */
  ghost predicate MemorySays(records: seq<P.Allocation>, pid: u32,
      memory: Option<Value>, quality: Option<Value>, scope: Option<Value>) {
    if exists j: nat :: P.Sized(records, pid, j) then
      (exists j: nat :: P.Sized(records, pid, j) && memory == Some(IntegerValue(records[j].value.memory))
        && forall n: nat :: P.Sized(records, pid, n) ==> records[n].value.memory <= records[j].value.memory)
      && quality == Says(if P.Doubtful(records, pid) then "estimated" else "fresh")
      && scope == Says(
        if P.Doubtful(records, pid) then "largest_reported_context"
        else if exists j: nat :: P.Sized(records, pid, j) && P.OfDevice(records, j) then "whole_device"
        else "reported_context")
    else memory == quality == scope == None
  }

  lemma RowMemory(r: P.Row, records: seq<P.Allocation>, previous: u64)
    requires SumsUp(r, records)
    ensures MemorySays(records, r.pid, RowValue(r, records, previous, 2), RowValue(r, records, previous, 3),
      RowValue(r, records, previous, 4))
  {
    hide P.Doubtful, Ascii, P.RowSources, P.OfDevice;
    if r.hasMemory {
      var j: nat :| P.Sized(records, r.pid, j) && records[j].value.memory == r.memory;
      assert Signed(r.memory) == r.memory;
    }
  }

  /** The row of a process under its number: its process, the lists that named it, and its size. */
  lemma RowFields(d: Device, previous: u64, detail: Detail, k: nat)
    requires Supported(d, previous, detail) && k < |detail.rows|
    ensures At(k + 1) in RowsTable(detail.rows, detail.records, previous)
    ensures var row := RowsTable(detail.rows, detail.records, previous)[At(k + 1)];
      row.TableValue? && (
        var (t, pid) := (row.fields, detail.rows[k].pid);
        Lookup(t, "pid") == Some(IntegerValue(pid))
        && KindSays(Lookup(t, "kind"), P.InList(P.Listing(d.computeList), pid), P.InList(P.Listing(d.graphicsList), pid))
        && MemorySays(detail.records, pid, Lookup(t, "memory_bytes"), Lookup(t, "memory_quality"), Lookup(t, "memory_scope"))
        && Lookup(t, "memory_contexts") == Some(TableValue(ContextsTable(detail.records, pid))))
  {
    hide Lookup, ROW_NAMES, RowTable, RowsTable, Ascii, P.RowSources, P.Merged, P.Sampled, P.Listing, ContextsTable;
    hide MemorySays, P.InList, P.Cut, P.Overflows, P.Delivered, P.Covered, P.AllSampled, P.Published;
    var (r, records) := (detail.rows[k], detail.records);
    RowsAt(detail.rows, records, previous, At(k + 1));
    RowNames();
    RowReads(r, records, previous, 0);
    RowReads(r, records, previous, 1);
    RowReads(r, records, previous, 2);
    RowReads(r, records, previous, 3);
    RowReads(r, records, previous, 4);
    RowReads(r, records, previous, 5);
    RowSumsUp(d, previous, detail, k);
    RowMemory(r, records, previous);
    P.SourcesMean(records, d.graphicsList, d.computeList, r.pid);
  }

  /** A sample that counts for a process: newer than the last one published, and percentages throughout. */
  predicate Counts(s: P.Sample, pid: u32, previous: u64) {
    s.pid == pid && previous < s.timestamp < 0xFFFF_FFFF_FFFF_FFFF
    && s.sm <= 100 && s.memory <= 100 && s.encoder <= 100 && s.decoder <= 100
  }

  /** A sample of the process that counts, and none that counts is newer. */
  ghost predicate NewestAt(samples: seq<P.Sample>, n: int, pid: u32, previous: u64) {
    0 <= n < |samples| && Counts(samples[n], pid, previous)
    && forall m :: 0 <= m < |samples| && Counts(samples[m], pid, previous) ==> samples[m].timestamp <= samples[n].timestamp
  }

  predicate SampleSays(t: Frame, s: P.Sample) {
    Lookup(t, "sm_percent") == Some(IntegerValue(s.sm)) && Lookup(t, "memory_percent") == Some(IntegerValue(s.memory))
    && Lookup(t, "encoder_percent") == Some(IntegerValue(s.encoder))
    && Lookup(t, "decoder_percent") == Some(IntegerValue(s.decoder))
    && Lookup(t, "sample_timestamp_us") == Some(IntegerValue(Signed(s.timestamp)))
  }

  predicate NoSample(t: Frame) {
    Lookup(t, "sm_percent") == Lookup(t, "memory_percent") == Lookup(t, "encoder_percent")
      == Lookup(t, "decoder_percent") == Lookup(t, "sample_timestamp_us") == Lookup(t, "sample_window") == None
  }

  /** The sample a row carries, in terms of the samples that count. */
  lemma NewestSample(r: P.Row, samples: seq<P.Sample>, previous: u64)
    requires P.Listed(r.pid) && P.Sampled(r, samples, previous)
    ensures r.hasSample <==> exists n :: 0 <= n < |samples| && Counts(samples[n], r.pid, previous)
    ensures var own := P.Sample(r.pid, r.timestamp, r.sm, r.utilization, r.encoder, r.decoder);
      r.hasSample ==> exists n :: NewestAt(samples, n, r.pid, previous) && samples[n] == own
  {
    assert forall n :: 0 <= n < |samples| ==>
      (Counts(samples[n], r.pid, previous) <==> P.Usable(samples[n], previous) && samples[n].pid == r.pid);
    if r.hasSample {
      var n :| 0 <= n < |samples| && P.Usable(samples[n], previous) && samples[n].pid == r.pid
        && samples[n] == P.Sample(r.pid, r.timestamp, r.sm, r.utilization, r.encoder, r.decoder);
      assert NewestAt(samples, n, r.pid, previous);
    }
  }

  /** The row carries one of the newest samples that count, whole, and none if there is none. */
  lemma SampleFields(d: Device, previous: u64, detail: Detail, k: nat)
    requires Supported(d, previous, detail) && k < |detail.rows|
    ensures At(k + 1) in RowsTable(detail.rows, detail.records, previous)
    ensures var row := RowsTable(detail.rows, detail.records, previous)[At(k + 1)];
      row.TableValue? && (
        var (t, pid, list) := (row.fields, detail.rows[k].pid, d.samples);
        var samples := if list.Answer? && list.status == 0 && |list.entries| <= 256 then list.entries else [];
        if exists n :: 0 <= n < |samples| && Counts(samples[n], pid, previous) then
          (exists n :: NewestAt(samples, n, pid, previous) && SampleSays(t, samples[n]))
          && Lookup(t, "sample_window") == Says(if previous == 0 then "driver_buffer" else "since_last_query")
        else NoSample(t))
  {
    hide Lookup, ROW_NAMES, RowTable, RowsTable, Ascii, P.RowSources, P.Merged, ContextsTable, Signed;
    hide P.Cut, P.Overflows, P.Covered, P.AllSampled, P.Published, P.Sampled, Counts, NewestAt;
    var (r, records, samples) := (detail.rows[k], detail.records, P.Delivered(d.samples));
    RowsAt(detail.rows, records, previous, At(k + 1));
    RowNames();
    RowReads(r, records, previous, 6);
    RowReads(r, records, previous, 7);
    RowReads(r, records, previous, 8);
    RowReads(r, records, previous, 9);
    RowReads(r, records, previous, 10);
    RowReads(r, records, previous, 11);
    assert P.Listed(r.pid);
    NewestSample(r, samples, previous);
  }

  const CONTEXT_NAMES: seq<string> := ["gpu_instance_id", "compute_instance_id", "memory_bytes", "kind"]

  function ContextValues(a: P.Allocation): (s: seq<Option<Value>>)
    ensures |s| == |CONTEXT_NAMES|
  {
    [Integral(Known(a.value.gpuInstance)), Integral(Known(a.value.computeInstance)), Integral(Accepted(a.value.memory)),
      Some(TextValue(KindText(a.sources)))]
  }

  lemma ContextUp(a: P.Allocation)
    ensures Names(CONTEXT_NAMES)
    ensures AddContext(map[], a) == Filled(CONTEXT_NAMES, ContextValues(a), 4)
  {
    ContextKeys();
    hide GoodName, Set, KindText;
    assert AddContext(map[], a) == Filled(CONTEXT_NAMES, ContextValues(a), 4) by {
      var (names, values) := (CONTEXT_NAMES, ContextValues(a));
      assert Filled(names, values, 1) == With(map[], names[0], values[0]);
      assert Filled(names, values, 2) == With(Filled(names, values, 1), names[1], values[1]);
      assert Filled(names, values, 3) == With(Filled(names, values, 2), names[2], values[2]);
    }
  }

  lemma KindMeans(a: P.Allocation, d: Device)
    requires P.Represents(a, P.Reported(d.graphicsList, d.computeList))
    ensures KindSays(Some(TextValue(KindText(a.sources))),
      Lists(P.Listing(d.computeList), a.value), Lists(P.Listing(d.graphicsList), a.value))
  {
    var (c, g) := (P.Listing(d.computeList), P.Listing(d.graphicsList));
    var reports := P.Named(0, c) + P.Named(1, g);
    hide Ascii, P.LargestKnown, P.Named, P.Listing;
    forall r: P.Report ensures r in reports <==> P.Listed(r.1.pid) && ((r.0 == 0 && r.1 in c) || (r.0 == 1 && r.1 in g)) {
      P.NamedHas(0, c, r);
      P.NamedHas(1, g, r);
    }
    if i :| 0 <= i < |c| && P.SameContext(c[i], a.value) { assert (0, c[i]) in reports; }
    if i :| 0 <= i < |g| && P.SameContext(g[i], a.value) { assert (1, g[i]) in reports; }
    if i :| 0 <= i < |reports| && P.SameContext(reports[i].1, a.value) { assert reports[i] in reports; }
    forall x | x in a.sources ensures (x == 0 && Lists(c, a.value)) || (x == 1 && Lists(g, a.value)) {
      var i :| 0 <= i < |reports| && P.SameContext(reports[i].1, a.value) && reports[i].0 == x;
      assert reports[i] in reports;
    }
  }

  /** The instances as far as they are known, the size as far as it is below 2^50, and the lists that named it. */
  ghost predicate ContextSays(c: Value, d: Device, p: P.Process) {
    c.TableValue?
    && Lookup(c.fields, "gpu_instance_id") == Within(Some(p.gpuInstance), 0, 0xFFFF_FFFE)
    && Lookup(c.fields, "compute_instance_id") == Within(Some(p.computeInstance), 0, 0xFFFF_FFFE)
    && Lookup(c.fields, "memory_bytes") == (if p.memory < 0x4_0000_0000_0000 then Some(IntegerValue(p.memory)) else None)
    && KindSays(Lookup(c.fields, "kind"), Lists(P.Listing(d.computeList), p), Lists(P.Listing(d.graphicsList), p))
  }

  /** Each record of a process has its own context, under its number among them. */
  lemma ContextFields(d: Device, previous: u64, detail: Detail, j: nat)
    requires Supported(d, previous, detail) && j < |detail.records|
    ensures var (records, p) := (detail.records, detail.records[j].value);
      var (t, k) := (ContextsTable(records, p.pid), At(CountPid(records[..j + 1], p.pid)));
      k in t && ContextSays(t[k], d, p)
  {
    hide Lookup, AddContext, ContextsTable, KindText, KindSays, Filled, Names, P.Represents, P.Listing, CountPid;
    hide P.SampledRows, P.Cut, P.Overflows, P.Delivered, P.Covered, P.AllSampled, P.Published, P.Reported;
    var a := detail.records[j];
    ContextsAt(detail.records, a.value.pid, j);
    ContextUp(a);
    FilledAt(CONTEXT_NAMES, ContextValues(a), 0, 4);
    FilledAt(CONTEXT_NAMES, ContextValues(a), 1, 4);
    FilledAt(CONTEXT_NAMES, ContextValues(a), 2, 4);
    FilledAt(CONTEXT_NAMES, ContextValues(a), 3, 4);
    KindMeans(a, d);
  }

  // ---- Devices and the reply -----------------------------------------------------------------------------------

  /** The device at this index gave this UUID, which fits. */
  predicate Gives(driver: Driver, i: nat, uuid: CText) {
    Answers(driver, i) && |uuid| < 128 && Answered(driver.devices[i].value.uuid, uuid)
  }

  /** It gave the same one again after its reading. */
  predicate Holds(driver: Driver, i: nat, uuid: CText) {
    Gives(driver, i, uuid) && Answered(driver.devices[i].value.uuidAgain, uuid)
  }

  /** No earlier device held the UUID this one gave, if it gave one. */
  ghost predicate FirstOfItsName(driver: Driver, i: nat) {
    forall uuid: CText, j: nat :: Gives(driver, i, uuid) && j < i ==> !Holds(driver, j, uuid)
  }

  lemma UuidMeans(driver: Driver, i: nat, uuid: CText)
    requires Answers(driver, i)
    ensures Uuid(driver, i) == uuid && uuid != [] <==> Gives(driver, i, uuid)
    ensures Steady(driver, i) && Uuid(driver, i) == uuid <==> Holds(driver, i, uuid)
  {
    hide Queried;
    QueriedMeans(driver.devices[i].value.uuid, uuid);
    QueriedMeans(driver.devices[i].value.uuidAgain, uuid);
    var u := Uuid(driver, i);
    if u != [] { QueriedMeans(driver.devices[i].value.uuid, u); }
  }

  lemma SteadyBeforeMeans(driver: Driver, n: nat, uuid: CText)
    ensures SteadyBefore(driver, n, uuid) <==> exists j: nat :: j < n && Holds(driver, j, uuid)
  {
    hide Uuid, Queried, Answered;
    if j: nat :| j < n && Steady(driver, j) && Uuid(driver, j) == uuid { UuidMeans(driver, j, uuid); }
    if j: nat :| j < n && Holds(driver, j, uuid) { UuidMeans(driver, j, uuid); }
  }

  /** Which devices are read, and which of them are reported. */
  lemma ReportedMeans(driver: Driver, i: nat)
    ensures Attempted(driver, i) <==> Answers(driver, i) && FirstOfItsName(driver, i)
    ensures Reported(driver, i) <==> (Answers(driver, i) && FirstOfItsName(driver, i)
      && forall uuid: CText :: Gives(driver, i, uuid) ==> Holds(driver, i, uuid))
  {
    hide Uuid, Steady, Gives, Holds, SteadyBefore;
    if Answers(driver, i) {
      var u := Uuid(driver, i);
      forall uuid: CText
        ensures u == uuid && uuid != [] <==> Gives(driver, i, uuid)
        ensures Steady(driver, i) && u == uuid <==> Holds(driver, i, uuid)
        ensures SteadyBefore(driver, i, uuid) <==> exists j: nat :: j < i && Holds(driver, j, uuid)
      {
        UuidMeans(driver, i, uuid);
        SteadyBeforeMeans(driver, i, uuid);
      }
    }
  }

  lemma {:induction false} CountMonotone(driver: Driver, i: nat, n: nat)
    requires i <= n
    ensures CountReported(driver, i) <= CountReported(driver, n)
    decreases n
  {
    if i < n { CountMonotone(driver, i, n - 1); }
  }

  /** A reported device is found behind the reported ones before it, and there is nothing else in the list. */
  lemma {:induction false} DeviceAt(driver: Driver, processes: bool, cursors: seq<Cursor>, details: seq<Detail>, i: nat, n: nat)
    requires i < n <= |details| <= MAX_DEVICES && Reported(driver, i)
    ensures var (t, k) := (DevicesTable(driver, processes, cursors, details, n), At(CountReported(driver, i) + 1));
      k in t && t[k] == TableValue(ReportOf(driver, i, processes, cursors, details[i]))
    decreases n
  {
    hide Reported, ReportOf;
    if i < n - 1 {
      DeviceAt(driver, processes, cursors, details, i, n - 1);
      CountMonotone(driver, i + 1, n - 1);
    }
  }

  lemma {:induction false} OnlyDevices(driver: Driver, processes: bool, cursors: seq<Cursor>, details: seq<Detail>,
      n: nat, k: Key)
    requires n <= |details| <= MAX_DEVICES && k in DevicesTable(driver, processes, cursors, details, n)
    ensures exists i: nat :: i < n && Reported(driver, i) && k == At(CountReported(driver, i) + 1)
    decreases n
  {
    hide Reported, ReportOf;
    if Reported(driver, n - 1) && k == At(CountReported(driver, n)) {
      assert k == At(CountReported(driver, n - 1) + 1);
    } else {
      OnlyDevices(driver, processes, cursors, details, n - 1, k);
    }
  }

  /** The number of an entry counts the reported devices before it. */
  lemma {:induction false} CountMeans(driver: Driver, n: nat)
    ensures CountReported(driver, n) == |set i: nat | i < n && Reported(driver, i)|
  {
    hide Reported;
    var s := set i: nat | i < n && Reported(driver, i);
    if n > 0 {
      CountMeans(driver, n - 1);
      var before := set i: nat | i < n - 1 && Reported(driver, i);
      assert s == if Reported(driver, n - 1) then before + {n - 1} else before;
    } else {
      assert s == {};
    }
  }

  const REPLY_NAMES: seq<string> := ["driver_version", "devices", "source", "status", "reason", "truncated"]

  function ReplyValues(driver: Driver, devices: Frame, partial: bool, truncated: bool): (s: seq<Option<Value>>)
    ensures |s| == |REPLY_NAMES|
  {
    [Words(Queried(driver.version)), Some(TableValue(devices)), Some(TextValue(SourceText())),
      Some(TextValue(StatusText(partial))), Words(if partial then Some(ReasonText()) else None),
      Some(BooleanValue(truncated))]
  }

  lemma ReplyNamesFit()
    ensures Names(REPLY_NAMES)
  {
    RootKeys();
    FinalKeys();
    hide GoodName;
  }

  lemma ReplyUp(driver: Driver, total: nat, processes: bool, cursors: seq<Cursor>, details: seq<Detail>)
    requires |details| == Visited(total)
    ensures ReplyTable(driver, total, processes, cursors, details)
      == Filled(REPLY_NAMES, ReplyValues(driver, DevicesTable(driver, processes, cursors, details, |details|),
        Partial(driver, total, processes, details), Truncated(driver, total, processes, details)), 6)
  {
    hide Set, DevicesTable, Partial, Truncated, Queried, SourceText, StatusText, ReasonText;
    var (names, values) := (REPLY_NAMES, ReplyValues(driver, DevicesTable(driver, processes, cursors, details, |details|),
      Partial(driver, total, processes, details), Truncated(driver, total, processes, details)));
    assert Filled(names, values, 1) == With(map[], names[0], values[0]);
    assert Filled(names, values, 2) == With(Filled(names, values, 1), names[1], values[1]);
    assert Filled(names, values, 3) == With(Filled(names, values, 2), names[2], values[2]);
    assert Filled(names, values, 4) == With(Filled(names, values, 3), names[3], values[3]);
    assert Filled(names, values, 5) == With(Filled(names, values, 4), names[4], values[4]);
    assert Filled(names, values, 6) == With(Filled(names, values, 5), names[5], values[5]);
  }

  /** The fields around the device list. Processes or devices are missing: more devices than are looked at, or a
      device that was read with processes missing. Anything may be: that, a device not reported, or another number of
      devices afterwards. */
  lemma ReplyFields(driver: Driver, total: nat, processes: bool, cursors: seq<Cursor>, details: seq<Detail>, text: CText)
    requires |details| == Visited(total)
    ensures var t := ReplyTable(driver, total, processes, cursors, details);
      var truncated := total > 64
        || (processes && exists i: nat :: i < |details| && Attempted(driver, i) && details[i].truncated);
      var partial := truncated || driver.countAgain != Some(total) || exists i: nat :: i < |details| && !Reported(driver, i);
      (Lookup(t, "driver_version") == Some(TextValue(text)) <==> Answered(driver.version, text))
      && Lookup(t, "devices") == Some(TableValue(DevicesTable(driver, processes, cursors, details, |details|)))
      && Lookup(t, "source") == Says("nvml") && Lookup(t, "truncated") == Some(BooleanValue(truncated))
      && Lookup(t, "status") == Says(if partial then "partial" else "ok")
      && Lookup(t, "reason") == if partial then Says("nvml_enumeration_incomplete") else None
  {
    hide Lookup, ReplyTable, DevicesTable, Queried, Filled, Names, Ascii, Reported, Attempted, Answered;
    ReplyUp(driver, total, processes, cursors, details);
    ReplyNamesFit();
    var values := ReplyValues(driver, DevicesTable(driver, processes, cursors, details, |details|),
      Partial(driver, total, processes, details), Truncated(driver, total, processes, details));
    FilledAt(REPLY_NAMES, values, 0, 6);
    FilledAt(REPLY_NAMES, values, 1, 6);
    FilledAt(REPLY_NAMES, values, 2, 6);
    FilledAt(REPLY_NAMES, values, 3, 6);
    FilledAt(REPLY_NAMES, values, 4, 6);
    FilledAt(REPLY_NAMES, values, 5, 6);
    QueriedMeans(driver.version, text);
  }

  // ---- From one collection to the next ---------------------------------------------------------------------------

  lemma {:induction false} KeptIs(cursors: seq<Cursor>, k: nat)
    requires k < |cursors| && cursors[k].uuid != [] && DistinctUuids(cursors)
    ensures Kept(cursors, cursors[k].uuid) == cursors[k].timestamp
    decreases |cursors|
  {
    if k < |cursors| - 1 {
      KeptIs(cursors[..|cursors| - 1], k);
    }
  }

  lemma {:induction false} KeptNone(cursors: seq<Cursor>, uuid: seq<byte>)
    requires !HasCursor(cursors, uuid)
    ensures Kept(cursors, uuid) == 0
    decreases |cursors|
  {
    if cursors != [] {
      var rest := cursors[..|cursors| - 1];
      assert forall j :: 0 <= j < |rest| ==> rest[j] == cursors[j];
      KeptNone(rest, uuid);
    }
  }

  /** After a committed collection the next one asks a device for samples since the newest one delivered under its
      UUID, or since the time it was asked for before, and from the beginning if no device held that UUID. */
  lemma NextAsksSince(driver: Driver, n: nat, processes: bool, before: seq<Cursor>, after: seq<Cursor>, uuid: CText)
    requires AllEarned(after, driver, processes, before) && Remembered(after, driver, n) && uuid != []
    ensures if exists j: nat :: j < n && Holds(driver, j, uuid) then
        exists i: nat :: Holds(driver, i, uuid)
          && NextCursor(driver.devices[i].value, processes, Previous(before, uuid), Previous(after, uuid))
      else Previous(after, uuid) == 0
  {
    hide Holds, Uuid, Kept, NextCursor, Queried;
    SteadyBeforeMeans(driver, n, uuid);
    if SteadyBefore(driver, n, uuid) {
      var k :| 0 <= k < |after| && after[k].uuid == uuid;
      KeptIs(after, k);
      assert Earned(after[k], driver, processes, before);
      var i: nat :| EarnedBy(after[k], driver, i, processes, Kept(before, uuid));
      UuidMeans(driver, i, uuid);
    } else {
      KeptNone(after, uuid);
    }
  }
}

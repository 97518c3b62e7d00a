/** What the NVML collector writes about one device, whatever the driver replied.
    Each section states which fields its table gains and how much of the stream budget it can use. */
module NvmlDevice {
  import opened Bytes
  import opened GpuWire
  import opened GpuReplay
  import opened GpuOutput
  import opened NvmlText
  import opened Decimals
  import P = NvmlProcesses

  const MAX_DEVICES: nat := 64

  /** The pattern of a double the code has checked, or computed from a bounded integer. */
  type FiniteBits = b: u64 | Finite(b)

  // ---- Driver replies: None when the symbol is missing or its status is not success -------------

  /** A number and the pattern of its scaled double. */
  datatype Measured = Measured(raw: u32, bits: FiniteBits)
  datatype Memory = Memory(total: u64, used: u64)
  /** A field value as the driver filled it in: `reading` is None for an infinity or a NaN, `bits` the pattern
      of its thousandth, `clock` the wall clock when its age is determined. */
  datatype PowerField = PowerField(id: u32, scope: u32, status: u32, kind: u32, reading: Option<real>,
    bits: FiniteBits, timestamp: int64, clock: Option<int64>)
  datatype Power = Power(fields: Option<(PowerField, PowerField)>, plain: Option<Measured>, limit: Option<Measured>)
  datatype Pcie = Pcie(generation: Option<u32>, width: Option<u32>, maxGeneration: Option<u32>,
    maxWidth: Option<u32>, sent: Option<u32>, received: Option<u32>)
  datatype Clocks = Clocks(graphics: Option<Measured>, memory: Option<Measured>, maximum: Option<Measured>,
    fan: Option<u32>, state: Option<u32>)
  /** The two entry points for a mask, each absent or with a status and the mask it left. */
  datatype Mask = Mask(current: Option<(u32, u64)>, legacy: Option<(u32, u64)>)
  datatype Events = Events(active: Mask, supported: Mask)
  datatype Device = Device(
    uuid: Option<Buffer>, uuidAgain: Option<Buffer>, name: Option<Buffer>, pci: Option<Pci>,
    utilization: Option<(u32, u32)>, memory: Option<Memory>, temperature: Option<u32>,
    power: Power, pcie: Pcie, clocks: Clocks, events: Events,
    graphicsList: P.Lists, computeList: P.Lists, samples: P.List<P.Sample>)
  /** `count` is a status and a number; `devices[i]` answers for index i; an index beyond the end has no handle. */
  datatype Driver = Driver(
    openError: Option<string>, count: (u32, u32), countAgain: Option<u32>,
    version: Option<Buffer>, devices: seq<Option<Device>>)

  predicate Plain(s: string) {
    |s| <= 256 && forall i :: 0 <= i < |s| ==> 0 as char < s[i] < 128 as char
  }

  function AsciiText(s: string): CText
    requires Plain(s)
  {
    Ascii(s)
  }

  // ---- Fields that may be missing ---------------------------------------------------------------------

  /** The table with one more field, if there is a value for it. */
  function With(t: Frame, key: string, v: Option<Value>): Frame {
    if v.Some? then Set(t, key, v.value) else t
  }

  function Integral(v: Option<int64>): Option<Value> {
    if v.Some? then Some(IntegerValue(v.value)) else None
  }

  function Double(v: Option<FiniteBits>): Option<Value> {
    if v.Some? then Some(NumberValue(v.value)) else None
  }

  function Words(v: Option<CText>): Option<Value> {
    if v.Some? then Some(TextValue(v.value)) else None
  }

  /** A reply that is believed only up to a limit. */
  function AtMost(v: Option<u32>, limit: u32): Option<int64> {
    if v.Some? && v.value <= limit then Some(v.value) else None
  }

  // ---- Scalar sections of a device ----------------------------------------------------------------

  lemma IdentityKeys()
    ensures GoodName("index") && GoodName("uuid") && GoodName("name")
    ensures GoodName("pci_bdf") && GoodName("vendor_id") && GoodName("device_id")
  {}

  function AddNames(t: Frame, name: Option<CText>, index: nat, uuid: CText): Frame
    requires index < MAX_DEVICES
  {
    var t := Set(t, "index", IntegerValue(index));
    var t := With(t, "uuid", Words(if uuid != [] then Some(uuid) else None));
    With(t, "name", Words(name))
  }

  method DeviceNames(out: Output, name: Option<CText>, index: nat, uuid: CText)
    requires out.Valid() && Room(out.machine, 3, 0, 3, 0) && index < MAX_DEVICES
    modifies out, out.data
    ensures out.Valid() && (out.data == old(out.data) || fresh(out.data))
    ensures Grew(old(out.machine), out.machine, 3, 0, 3)
    ensures out.below == old(out.below) && out.table == AddNames(old(out.table), name, index, uuid)
  {
    hide GoodName, Ascii, Set, Finite, Output.Valid, Live, Top, Below, Operations, Tables;
    IdentityKeys();
    out.IntegerField("index", index);
    if uuid != [] { out.StringField("uuid", uuid); }
    if name.Some? { out.StringField("name", name.value); }
  }

  /** Vendor and device number are the two halves of one word. */
  function AddPci(t: Frame, reply: Option<Pci>): Frame {
    if reply.None? then t
    else
      var (pci, address) := (reply.value, BusAddress(reply.value));
      var known := pci.ids != P.UINT_MAX;
      var t := With(t, "pci_bdf", Words(if address.Confirmed? then Some(address.text) else None));
      var t := With(t, "vendor_id", Words(if known then Some(Prefixed(pci.ids % 0x1_0000, 4)) else None));
      With(t, "device_id", Words(if known then Some(Prefixed(pci.ids / 0x1_0000, 4)) else None))
  }

  method DevicePci(out: Output, reply: Option<Pci>)
    requires out.Valid() && Room(out.machine, 3, 0, 3, 0)
    modifies out, out.data
    ensures out.Valid() && (out.data == old(out.data) || fresh(out.data))
    ensures Grew(old(out.machine), out.machine, 3, 0, 3)
    ensures out.below == old(out.below) && out.table == AddPci(old(out.table), reply)
  {
    hide GoodName, Ascii, Set, Finite, Output.Valid, Live, Top, Below, Operations, Tables, Prefixed, Locate;
    IdentityKeys();
    if reply.Some? {
      var pci := reply.value;
      var address := PciAddress(pci.busId, pci);
      if address.Malformed? { address := PciAddress(pci.busIdLegacy, pci); }
      if address.Confirmed? { out.StringField("pci_bdf", address.text); }
      if pci.ids != P.UINT_MAX {
        out.StringField("vendor_id", Prefixed(pci.ids % 0x1_0000, 4));
        out.StringField("device_id", Prefixed(pci.ids / 0x1_0000, 4));
      }
    }
  }

  lemma UtilizationKeys()
    ensures GoodName("utilization_percent") && GoodName("memory_utilization_percent")
  {}

  function AddUtilization(t: Frame, reply: Option<(u32, u32)>): Frame {
    if reply.None? then t
    else
      var t := With(t, "utilization_percent", Integral(AtMost(Some(reply.value.0), 100)));
      With(t, "memory_utilization_percent", Integral(AtMost(Some(reply.value.1), 100)))
  }

  method DeviceUtilization(out: Output, reply: Option<(u32, u32)>)
    requires out.Valid() && Room(out.machine, 2, 0, 2, 0)
    modifies out, out.data
    ensures out.Valid() && (out.data == old(out.data) || fresh(out.data))
    ensures Grew(old(out.machine), out.machine, 2, 0, 2)
    ensures out.below == old(out.below) && out.table == AddUtilization(old(out.table), reply)
  {
    hide GoodName, Ascii, Set, Finite, Output.Valid, Live, Top, Below, Operations, Tables;
    UtilizationKeys();
    if reply.Some? {
      var (gpu, memory) := reply.value;
      if gpu <= 100 { out.IntegerField("utilization_percent", gpu); }
      if memory <= 100 { out.IntegerField("memory_utilization_percent", memory); }
    }
  }

  lemma MemoryKeys()
    ensures GoodName("memory_total_bytes") && GoodName("memory_used_bytes") && GoodName("temperature_celsius")
  {}

  /** A believable total, and a use that fits in it. */
  function TotalBytes(reply: Option<Memory>): Option<int64> {
    if reply.Some? && reply.value.total < P.MEMORY_LIMIT then Some(reply.value.total) else None
  }

  function UsedBytes(reply: Option<Memory>): Option<int64> {
    if TotalBytes(reply).Some? && reply.value.used <= reply.value.total then Some(reply.value.used) else None
  }

  function AddMemory(t: Frame, reply: Option<Memory>, temperature: Option<u32>): Frame {
    var t := With(t, "memory_total_bytes", Integral(TotalBytes(reply)));
    var t := With(t, "memory_used_bytes", Integral(UsedBytes(reply)));
    With(t, "temperature_celsius", Integral(AtMost(temperature, 999)))
  }

  method DeviceMemory(out: Output, reply: Option<Memory>, temperature: Option<u32>)
    requires out.Valid() && Room(out.machine, 3, 0, 3, 0)
    modifies out, out.data
    ensures out.Valid() && (out.data == old(out.data) || fresh(out.data))
    ensures Grew(old(out.machine), out.machine, 3, 0, 3)
    ensures out.below == old(out.below) && out.table == AddMemory(old(out.table), reply, temperature)
  {
    hide GoodName, Ascii, Set, Finite, Output.Valid, Live, Top, Below, Operations, Tables;
    MemoryKeys();
    if reply.Some? && reply.value.total < P.MEMORY_LIMIT {
      var memory := reply.value;
      out.IntegerField("memory_total_bytes", memory.total);
      if memory.used <= memory.total { out.IntegerField("memory_used_bytes", memory.used); }
    }
    if temperature.Some? && temperature.value < 1000 {
      out.IntegerField("temperature_celsius", temperature.value);
    }
  }

  // ---- Power ------------------------------------------------------------------------------------------

  datatype Quality = Gap | Stale | Fresh
  {
    function Word(): CText {
      match this
      case Gap => AsciiText("gap")
      case Stale => AsciiText("stale")
      case Fresh => AsciiText("fresh")
    }
  }

  /** Field timestamps are wall-clock microseconds: fresh for five seconds, at most one
      second ahead of the clock. */
  function Freshness(timestamp: int64, clock: Option<int64>): Quality {
    if timestamp <= 0 || clock.None? || clock.value - timestamp < -1000000 then Gap
    else if clock.value - timestamp > 5000000 then Stale else Fresh
  }

  lemma InstantKeys()
    ensures GoodName("power_instant_quality") && GoodName("power_instant_watts")
    ensures GoodName("power_instant_timestamp_us")
  {}

  lemma AverageKeys()
    ensures GoodName("power_average_quality") && GoodName("power_average_watts")
    ensures GoodName("power_average_interval_ns") && GoodName("power_average_timestamp_us")
  {}

  lemma PublishedPowerKeys()
    ensures GoodName("power_watts") && GoodName("power_measurement") && GoodName("power_quality")
  {}

  lemma LimitKeys()
    ensures GoodName("power_interval_ns") && GoodName("power_limit_watts")
  {}

  /** A field is used if it is the one asked for, about the whole GPU, of a known kind and in range. */
  predicate FieldUsable(f: PowerField, id: u32) {
    f.id == id && f.scope == 0 && f.status == 0 && f.kind <= 6
    && f.reading.Some? && 0.0 <= f.reading.value < 100000000.0
  }

  function Instant(power: Power): Option<PowerField> {
    if power.fields.Some? && FieldUsable(power.fields.value.0, 186) then Some(power.fields.value.0) else None
  }

  function Average(power: Power): Option<PowerField> {
    if power.fields.Some? && FieldUsable(power.fields.value.1, 185) then Some(power.fields.value.1) else None
  }

  function QualityOf(f: Option<PowerField>): Option<Quality> {
    if f.Some? then Some(Freshness(f.value.timestamp, f.value.clock)) else None
  }

  /** The instantaneous value wins unless it is not fresh and the average is. */
  function InstantWins(power: Power): bool {
    Instant(power).Some?
    && (Average(power).None? || QualityOf(Instant(power)) == Some(Fresh) || QualityOf(Average(power)) != Some(Fresh))
  }

  /** What a device publishes as its power. */
  datatype Published = Published(watts: FiniteBits, measurement: string, quality: Quality, interval: bool)

  function Headline(power: Power): Option<Published> {
    if InstantWins(power) then
      Some(Published(Instant(power).value.bits, "current", QualityOf(Instant(power)).value, false))
    else if Average(power).Some? then
      Some(Published(Average(power).value.bits, "average", QualityOf(Average(power)).value, true))
    else if power.plain.Some? && power.plain.value.raw < 100000000 then
      Some(Published(power.plain.value.bits, "device_sample", Fresh, false))
    else None
  }

  /** A fresh field was measured at most five seconds ago, and at most one second in the future. */
  lemma FreshIsRecent(f: PowerField)
    ensures Freshness(f.timestamp, f.clock) == Fresh
      <==> f.timestamp > 0 && f.clock.Some? && -1000000 <= f.clock.value - f.timestamp <= 5000000
  {}

  /** Nothing stale is published while a fresh reading exists, nothing is published as fresh that is not,
      and what is published is one of the usable readings with its own quality, if fresh at most five seconds
      old. */
  lemma HeadlineIsFreshest(power: Power)
    requires Instant(power).Some? || Average(power).Some?
    ensures Headline(power).Some?
    ensures Headline(power).value.quality == Fresh
      <==> QualityOf(Instant(power)) == Some(Fresh) || QualityOf(Average(power)) == Some(Fresh)
    ensures var f := (if Headline(power).value.interval then Average(power) else Instant(power));
      f.Some? && Headline(power).value.watts == f.value.bits && QualityOf(f) == Some(Headline(power).value.quality)
      && (Headline(power).value.quality == Fresh ==>
        f.value.timestamp > 0 && f.value.clock.Some? && -1000000 <= f.value.clock.value - f.value.timestamp <= 5000000)
  {
    FreshIsRecent((if Headline(power).value.interval then Average(power) else Instant(power)).value);
  }

  function AddInstant(t: Frame, f: PowerField): Frame {
    var t := Set(t, "power_instant_quality", TextValue(Freshness(f.timestamp, f.clock).Word()));
    var t := Set(t, "power_instant_watts", NumberValue(f.bits));
    With(t, "power_instant_timestamp_us", Integral(if f.timestamp > 0 then Some(f.timestamp) else None))
  }

  function AddAverage(t: Frame, f: PowerField): Frame {
    var t := Set(t, "power_average_quality", TextValue(Freshness(f.timestamp, f.clock).Word()));
    var t := Set(t, "power_average_watts", NumberValue(f.bits));
    var t := Set(t, "power_average_interval_ns", IntegerValue(1000000000));
    With(t, "power_average_timestamp_us", Integral(if f.timestamp > 0 then Some(f.timestamp) else None))
  }

  function AddFields(t: Frame, power: Power): Frame {
    var t := if Instant(power).Some? then AddInstant(t, Instant(power).value) else t;
    if Average(power).Some? then AddAverage(t, Average(power).value) else t
  }

  function AddHeadline(t: Frame, power: Power): Frame {
    var h := Headline(power);
    if h.None? then t
    else
      var t := Set(t, "power_watts", NumberValue(h.value.watts));
      var t := Set(t, "power_measurement", TextValue(Ascii(h.value.measurement)));
      var t := Set(t, "power_quality", TextValue(h.value.quality.Word()));
      if h.value.interval then Set(t, "power_interval_ns", IntegerValue(1000000000)) else t
  }

  function AddLimit(t: Frame, power: Power): Frame {
    var limited := power.limit.Some? && 0 < power.limit.value.raw < 100000000;
    With(t, "power_limit_watts", Double(if limited then Some(power.limit.value.bits) else None))
  }

  function AddPower(t: Frame, power: Power): Frame {
    AddLimit(AddHeadline(AddFields(t, power), power), power)
  }

  method InstantField(out: Output, f: PowerField)
    requires out.Valid() && Room(out.machine, 3, 0, 3, 0)
    modifies out, out.data
    ensures out.Valid() && (out.data == old(out.data) || fresh(out.data))
    ensures Grew(old(out.machine), out.machine, 3, 0, 3)
    ensures out.below == old(out.below) && out.table == AddInstant(old(out.table), f)
  {
    hide GoodName, Ascii, Set, Finite, Output.Valid, Live, Top, Below, Operations, Tables, Quality.Word, Freshness;
    InstantKeys();
    out.StringField("power_instant_quality", Freshness(f.timestamp, f.clock).Word());
    out.NumberField("power_instant_watts", f.bits);
    if f.timestamp > 0 { out.IntegerField("power_instant_timestamp_us", f.timestamp); }
  }

  method AverageField(out: Output, f: PowerField)
    requires out.Valid() && Room(out.machine, 4, 0, 4, 0)
    modifies out, out.data
    ensures out.Valid() && (out.data == old(out.data) || fresh(out.data))
    ensures Grew(old(out.machine), out.machine, 4, 0, 4)
    ensures out.below == old(out.below) && out.table == AddAverage(old(out.table), f)
  {
    hide GoodName, Ascii, Set, Finite, Output.Valid, Live, Top, Below, Operations, Tables, Quality.Word, Freshness;
    AverageKeys();
    out.StringField("power_average_quality", Freshness(f.timestamp, f.clock).Word());
    out.NumberField("power_average_watts", f.bits);
    out.IntegerField("power_average_interval_ns", 1000000000);
    if f.timestamp > 0 { out.IntegerField("power_average_timestamp_us", f.timestamp); }
  }

  method PowerFields(out: Output, power: Power)
    requires out.Valid() && Room(out.machine, 7, 0, 7, 0)
    modifies out, out.data
    ensures out.Valid() && (out.data == old(out.data) || fresh(out.data))
    ensures Grew(old(out.machine), out.machine, 7, 0, 7)
    ensures out.below == old(out.below) && out.table == AddFields(old(out.table), power)
  {
    hide Output.Valid, Live, Top, Below, Operations, Tables, FieldUsable, AddInstant, AddAverage;
    if Instant(power).Some? { InstantField(out, Instant(power).value); }
    if Average(power).Some? { AverageField(out, Average(power).value); }
  }

  method PublishedPower(out: Output, power: Power)
    requires out.Valid() && Room(out.machine, 4, 0, 4, 0)
    modifies out, out.data
    ensures out.Valid() && (out.data == old(out.data) || fresh(out.data))
    ensures Grew(old(out.machine), out.machine, 4, 0, 4)
    ensures out.below == old(out.below) && out.table == AddHeadline(old(out.table), power)
  {
    hide GoodName, Ascii, Set, Finite, Output.Valid, Live, Top, Below, Operations, Tables, Quality.Word;
    hide FieldUsable, Freshness;
    PublishedPowerKeys();
    LimitKeys();
    var instant, average := Instant(power), Average(power);
    if instant.Some? || average.Some? {
      var useInstant := instant.Some?
        && (average.None? || QualityOf(instant) == Some(Fresh) || QualityOf(average) != Some(Fresh));
      out.NumberField("power_watts", if useInstant then instant.value.bits else average.value.bits);
      out.StringField("power_measurement", if useInstant then AsciiText("current") else AsciiText("average"));
      out.StringField("power_quality", (if useInstant then QualityOf(instant) else QualityOf(average)).value.Word());
      if !useInstant { out.IntegerField("power_interval_ns", 1000000000); }
    } else if power.plain.Some? && power.plain.value.raw < 100000000 {
      out.NumberField("power_watts", power.plain.value.bits);
      out.StringField("power_measurement", AsciiText("device_sample"));
      out.StringField("power_quality", Fresh.Word());
    }
  }

  method PowerLimit(out: Output, power: Power)
    requires out.Valid() && Room(out.machine, 1, 0, 1, 0)
    modifies out, out.data
    ensures out.Valid() && (out.data == old(out.data) || fresh(out.data))
    ensures Grew(old(out.machine), out.machine, 1, 0, 1)
    ensures out.below == old(out.below) && out.table == AddLimit(old(out.table), power)
  {
    hide GoodName, Ascii, Set, Finite, Output.Valid, Live, Top, Below, Operations, Tables;
    LimitKeys();
    if power.limit.Some? && 0 < power.limit.value.raw < 100000000 {
      out.NumberField("power_limit_watts", power.limit.value.bits);
    }
  }

  method DevicePower(out: Output, power: Power)
    requires out.Valid() && Room(out.machine, 12, 0, 12, 0)
    modifies out, out.data
    ensures out.Valid() && (out.data == old(out.data) || fresh(out.data))
    ensures Grew(old(out.machine), out.machine, 12, 0, 12)
    ensures out.below == old(out.below) && out.table == AddPower(old(out.table), power)
  {
    hide Output.Valid, Live, Top, Below, Operations, Tables, AddFields, AddHeadline, AddLimit;
    ghost var m := out.machine;
    PowerFields(out, power);
    ghost var m' := out.machine;
    PublishedPower(out, power);
    PowerLimit(out, power);
    GrewTrans(m, m', out.machine, 7, 0, 7, 5, 0, 5);
  }

  // ---- Link, clocks and state --------------------------------------------------------------------------

  lemma LinkKeys()
    ensures GoodName("pcie_current_generation") && GoodName("pcie_current_width")
    ensures GoodName("pcie_maximum_generation") && GoodName("pcie_maximum_width")
  {}

  lemma RateKeys()
    ensures GoodName("pcie_tx_kilobytes_per_second") && GoodName("pcie_rx_kilobytes_per_second")
  {}

  lemma IntervalKey()
    ensures GoodName("pcie_throughput_interval_ns")
  {}

  const LINK_KEYS: seq<string> :=
    ["pcie_current_generation", "pcie_current_width", "pcie_maximum_generation", "pcie_maximum_width"]

  function Link(pcie: Pcie, i: nat): Option<u32>
    requires i < 4
  {
    [pcie.generation, pcie.width, pcie.maxGeneration, pcie.maxWidth][i]
  }

  /** Generations from 1 to 32, widths up to 64. */
  function LinkValue(pcie: Pcie, i: nat): Option<int64>
    requires i < 4
  {
    if i % 2 == 0 && Link(pcie, i) == Some(0) then None
    else AtMost(Link(pcie, i), if i % 2 == 0 then 32 else 64)
  }

  /** The first n link fields. */
  function AddLinks(t: Frame, pcie: Pcie, n: nat): Frame
    requires n <= 4
  {
    if n == 0 then t else With(AddLinks(t, pcie, n - 1), LINK_KEYS[n - 1], Integral(LinkValue(pcie, n - 1)))
  }

  /** A rate, unless the driver answered with its mark for none. */
  function Rate(v: Option<u32>): Option<int64> {
    AtMost(v, P.UINT_MAX - 1)
  }

  /** The interval of the rates is given if there is one. */
  function AddRates(t: Frame, pcie: Pcie): Frame {
    var (sent, received) := (Rate(pcie.sent), Rate(pcie.received));
    var t := With(t, "pcie_tx_kilobytes_per_second", Integral(sent));
    var t := With(t, "pcie_rx_kilobytes_per_second", Integral(received));
    With(t, "pcie_throughput_interval_ns", Integral(if sent.Some? || received.Some? then Some(20000000) else None))
  }

  method PcieRates(out: Output, pcie: Pcie)
    requires out.Valid() && Room(out.machine, 3, 0, 3, 0)
    modifies out, out.data
    ensures out.Valid() && (out.data == old(out.data) || fresh(out.data))
    ensures Grew(old(out.machine), out.machine, 3, 0, 3)
    ensures out.below == old(out.below) && out.table == AddRates(old(out.table), pcie)
  {
    hide GoodName, Ascii, Set, Finite, Output.Valid, Live, Top, Below, Operations, Tables;
    RateKeys();
    IntervalKey();
    ghost var (m, t) := (out.machine, out.table);
    var rates := false;
    for direction := 0 to 2
      invariant out.Valid() && (out.data == old(out.data) || fresh(out.data))
      invariant Grew(m, out.machine, direction, 0, direction)
      invariant rates <==> (direction > 0 && Rate(pcie.sent).Some?) || (direction > 1 && Rate(pcie.received).Some?)
      invariant out.below == old(out.below)
      invariant direction == 0 ==> out.table == t
      invariant direction == 1 ==> out.table == With(t, "pcie_tx_kilobytes_per_second", Integral(Rate(pcie.sent)))
      invariant direction == 2 ==> out.table == With(With(t, "pcie_tx_kilobytes_per_second", Integral(Rate(pcie.sent))),
        "pcie_rx_kilobytes_per_second", Integral(Rate(pcie.received)))
    {
      var reply := if direction == 0 then pcie.sent else pcie.received;
      if reply.Some? && reply.value != P.UINT_MAX {
        if direction == 0 {
          out.IntegerField("pcie_tx_kilobytes_per_second", reply.value);
        } else {
          out.IntegerField("pcie_rx_kilobytes_per_second", reply.value);
        }
        rates := true;
      }
    }
    if rates { out.IntegerField("pcie_throughput_interval_ns", 20000000); }
  }

  method DevicePcie(out: Output, pcie: Pcie)
    requires out.Valid() && Room(out.machine, 7, 0, 7, 0)
    modifies out, out.data
    ensures out.Valid() && (out.data == old(out.data) || fresh(out.data))
    ensures Grew(old(out.machine), out.machine, 7, 0, 7)
    ensures out.below == old(out.below) && out.table == AddRates(AddLinks(old(out.table), pcie, 4), pcie)
  {
    hide GoodName, Ascii, Set, Finite, Output.Valid, Live, Top, Below, Operations, Tables;
    ghost var (m, t) := (out.machine, out.table);
    LinkKeys();
    for i := 0 to 4
      invariant out.Valid() && (out.data == old(out.data) || fresh(out.data))
      invariant Grew(m, out.machine, i, 0, i)
      invariant out.below == old(out.below) && out.table == AddLinks(t, pcie, i)
    {
      if Link(pcie, i).Some? {
        var value := Link(pcie, i).value;
        if (i % 2 == 0 && value > 0 && value <= 32) || (i % 2 == 1 && value <= 64) {
          out.IntegerField(LINK_KEYS[i], value);
        }
      }
    }
    ghost var m' := out.machine;
    PcieRates(out, pcie);
    GrewTrans(m, m', out.machine, 4, 0, 4, 3, 0, 3);
  }

  lemma ClockKeys()
    ensures GoodName("graphics_clock_hz") && GoodName("memory_clock_hz") && GoodName("graphics_clock_maximum_hz")
  {}

  /** A clock below 100 GHz; a maximum of zero means none. */
  function Hertz(m: Option<Measured>, least: nat): Option<FiniteBits> {
    if m.Some? && least <= m.value.raw < 100000 then Some(m.value.bits) else None
  }

  function AddClocks(t: Frame, c: Clocks): Frame {
    var t := With(t, "graphics_clock_hz", Double(Hertz(c.graphics, 0)));
    var t := With(t, "memory_clock_hz", Double(Hertz(c.memory, 0)));
    With(t, "graphics_clock_maximum_hz", Double(Hertz(c.maximum, 1)))
  }

  method DeviceClocks(out: Output, c: Clocks)
    requires out.Valid() && Room(out.machine, 3, 0, 3, 0)
    modifies out, out.data
    ensures out.Valid() && (out.data == old(out.data) || fresh(out.data))
    ensures Grew(old(out.machine), out.machine, 3, 0, 3)
    ensures out.below == old(out.below) && out.table == AddClocks(old(out.table), c)
  {
    hide GoodName, Ascii, Set, Finite, Output.Valid, Live, Top, Below, Operations, Tables;
    ClockKeys();
    if c.graphics.Some? && c.graphics.value.raw < 100000 { out.NumberField("graphics_clock_hz", c.graphics.value.bits); }
    if c.memory.Some? && c.memory.value.raw < 100000 { out.NumberField("memory_clock_hz", c.memory.value.bits); }
    if c.maximum.Some? && 0 < c.maximum.value.raw < 100000 {
      out.NumberField("graphics_clock_maximum_hz", c.maximum.value.bits);
    }
  }

  lemma StateKeys()
    ensures GoodName("fan_speed_percent") && GoodName("performance_state")
  {}

  /** P and the number of the state. */
  function StateText(state: nat): (t: CText)
    requires state <= 15
  {
    var t: seq<byte> := [80] + Print(state);
    assert |Print(state)| <= 2;
    t
  }

  function AddState(t: Frame, c: Clocks): Frame {
    var t := With(t, "fan_speed_percent", Integral(AtMost(c.fan, 100)));
    With(t, "performance_state", Words(if AtMost(c.state, 15).Some? then Some(StateText(c.state.value)) else None))
  }

  method DeviceState(out: Output, c: Clocks)
    requires out.Valid() && Room(out.machine, 2, 0, 2, 0)
    modifies out, out.data
    ensures out.Valid() && (out.data == old(out.data) || fresh(out.data))
    ensures Grew(old(out.machine), out.machine, 2, 0, 2)
    ensures out.below == old(out.below) && out.table == AddState(old(out.table), c)
  {
    hide GoodName, Ascii, Set, Finite, Output.Valid, Live, Top, Below, Operations, Tables, StateText;
    StateKeys();
    if c.fan.Some? && c.fan.value <= 100 { out.IntegerField("fan_speed_percent", c.fan.value); }
    if c.state.Some? && c.state.value <= 15 { out.StringField("performance_state", StateText(c.state.value)); }
  }

  // ---- Clock events ----------------------------------------------------------------------------------

  /** The status, the mask behind it, and whether the older entry point had to be asked. */
  datatype Query = Query(status: u32, mask: u64, older: bool)

  /** The older entry point is asked when the newer one is absent, unsupported or not found. */
  function Asked(m: Mask): Query {
    if m.legacy.Some? && (m.current.None? || m.current.value.0 in {3, 13}) then
      Query(m.legacy.value.0, m.legacy.value.1, true)
    else if m.current.Some? then Query(m.current.value.0, m.current.value.1, false)
    else Query(13, P.UNKNOWN, false)
  }

  method MaskQuery(m: Mask) returns (q: Query)
    ensures q == Asked(m)
  {
    var status, mask, older := 13, P.UNKNOWN, false;
    if m.current.Some? { status, mask := m.current.value.0, m.current.value.1; }
    if (m.current.None? || status == 3 || status == 13) && m.legacy.Some? {
      older := true;
      status, mask := m.legacy.value.0, m.legacy.value.1;
    }
    q := Query(status, mask, older);
  }

  function ActiveSource(older: bool): CText {
    if older then AsciiText("nvmlDeviceGetCurrentClocksThrottleReasons")
    else AsciiText("nvmlDeviceGetCurrentClocksEventReasons")
  }

  function SupportedSource(older: bool): CText {
    if older then AsciiText("nvmlDeviceGetSupportedClocksThrottleReasons")
    else AsciiText("nvmlDeviceGetSupportedClocksEventReasons")
  }

  lemma StatusKeys()
    ensures GoodName("status_code") && GoodName("supported_status_code")
    ensures GoodName("source") && GoodName("supported_source")
  {}

  lemma MaskKeys()
    ensures GoodName("raw_hex") && GoodName("supported_hex") && GoodName("clock_events")
  {}

  function AddStatus(t: Frame, active: Query, supported: Query): Frame {
    var t := Set(t, "status_code", IntegerValue(active.status));
    var t := Set(t, "supported_status_code", IntegerValue(supported.status));
    var t := Set(t, "source", TextValue(ActiveSource(active.older)));
    Set(t, "supported_source", TextValue(SupportedSource(supported.older)))
  }

  /** A mask is published only with a status of success. */
  function AddMasks(t: Frame, active: Query, supported: Query): Frame {
    var t := With(t, "raw_hex", Words(if active.status == 0 then Some(Prefixed(active.mask, 16)) else None));
    With(t, "supported_hex", Words(if supported.status == 0 then Some(Prefixed(supported.mask, 16)) else None))
  }

  function EventsTable(e: Events): Frame {
    AddMasks(AddStatus(map[], Asked(e.active), Asked(e.supported)), Asked(e.active), Asked(e.supported))
  }

  method EventStatus(out: Output, active: Query, supported: Query)
    requires out.Valid() && Room(out.machine, 4, 0, 4, 0)
    modifies out, out.data
    ensures out.Valid() && (out.data == old(out.data) || fresh(out.data))
    ensures Grew(old(out.machine), out.machine, 4, 0, 4)
    ensures out.below == old(out.below) && out.table == AddStatus(old(out.table), active, supported)
  {
    hide GoodName, Ascii, Set, Finite, Output.Valid, Live, Top, Below, Operations, Tables, ActiveSource, SupportedSource;
    StatusKeys();
    out.IntegerField("status_code", active.status);
    out.IntegerField("supported_status_code", supported.status);
    out.StringField("source", ActiveSource(active.older));
    out.StringField("supported_source", SupportedSource(supported.older));
  }

  method EventMasks(out: Output, active: Query, supported: Query)
    requires out.Valid() && Room(out.machine, 2, 0, 2, 0)
    modifies out, out.data
    ensures out.Valid() && (out.data == old(out.data) || fresh(out.data))
    ensures Grew(old(out.machine), out.machine, 2, 0, 2)
    ensures out.below == old(out.below) && out.table == AddMasks(old(out.table), active, supported)
  {
    hide GoodName, Ascii, Set, Finite, Output.Valid, Live, Top, Below, Operations, Tables, Prefixed;
    MaskKeys();
    if active.status == 0 { out.StringField("raw_hex", Prefixed(active.mask, 16)); }
    if supported.status == 0 { out.StringField("supported_hex", Prefixed(supported.mask, 16)); }
  }

  method ClockEvents(out: Output, e: Events)
    requires out.Valid() && Room(out.machine, 8, 1, 1, 1)
    modifies out, out.data
    ensures out.Valid() && (out.data == old(out.data) || fresh(out.data))
    ensures Grew(old(out.machine), out.machine, 8, 1, 1)
    ensures out.below == old(out.below)
    ensures out.table == Set(old(out.table), "clock_events", TableValue(EventsTable(e)))
  {
    hide GoodName, Ascii, Set, Finite, Output.Valid, Top, Below, Operations, Tables, AddStatus, AddMasks;
    MaskKeys();
    var active := MaskQuery(e.active);
    var supported := MaskQuery(e.supported);
    ghost var a := out.machine;
    out.OpenTable(0, 6);
    ghost var b := out.machine;
    EventStatus(out, active, supported);
    EventMasks(out, active, supported);
    ghost var c := out.machine;
    assert Grew(b, c, 6, 0, 6);
    NestedCanClose(a, b, c, 6, 0, 6);
    out.Attach("clock_events");
    GrewNested(a, b, c, out.machine, 6, 0, 6);
  }
}

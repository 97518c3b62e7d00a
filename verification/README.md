# Verification of wtop's collectors

wtop is a terminal system monitor. Most of it asks operating systems and drivers; between those calls sit
protocols, caches, parsers and small concurrent state machines that must keep their promises whatever the answers
are. This project models those parts in Dafny and proves the promises. Driver and operating system replies are
arbitrary inputs; clocks, deadlines and thread scheduling are arbitrary choices.

| Module | What it models |
|---|---|
| `Bytes`, `Decimals` | little-endian words, single bits, the 32-bit FNV-1a hash, wrapped tick differences, decimal text |
| `GpuWire` | the operation stream of the GPU readers: encoder, decoder and the in-place stack-machine validator |
| `GpuReplay` | the meaning of the operations on a Lua stack, and the parent's decoder |
| `GpuOutput` | the doubling output buffer and the emitting functions, with the table their operations build |
| `NvmlText`, `NvmlProcesses`, `NvmlDevice`, `NvmlCollect` | one NVML collection: texts and addresses, merging process lists, the per-device sections, the whole reply, its cursors, and what the parent decodes from it |
| `NvmlFields` | the reply as its reader sees it: what is found under each name, on the driver's answers |
| `ImageCache` | the shared, reference-counted worker executable |
| `CpuidPacket`, `CpuidCapture`, `CpuidJobs` | the CPUID reader: packet, bounded capture, and the job shared by a Lua context and a worker thread |
| `RemovableProbes` | capacity probes of removable drives in at most two background workers |
| `DiskGenerations` | the identity slots and generations of disks |
| `ProcessCaches` | the eight-way owner and path caches of processes |
| `WifiAttributes`, `WifiExchange`, `WifiScan`, `WifiRead` | netlink attributes, the request/reply exchange, the two-dump association check, and the whole reading over one socket |
| `WifiReports` | what messages and readings report, on the attributes they carry |
| `LevelZeroEnergy` | power from energy counters with transactional cursors |
| `CpuTopology`, `CpuNumbers` | reconciling CPU Sets with affinity masks, and what the resulting cores and packages mean |
| `StatusSpans`, `StatusNumbers` | the duplicate-key inventory of process status texts, and their numbers and lists |
| `ProcStat` | the `/proc/<pid>/stat` fast path and the start-time reader |
| `NaturalOrder` | the order of sensor readings |

Code that changes state is modelled by methods over arrays and class fields, proved against specification functions
or predicates; the interlocked protocols are transition systems whose steps are single atomic operations, so that
their invariants hold over every interleaving. What the larger specification functions mean is stated once more on
inputs and outputs alone, without naming them: which field of a reply holds which answer, which message reports an
association, what a number or a label's place stands for. `dafny verify dfyconfig.toml` checks everything.

## Findings

- A failed buffer growth is recorded as an allocation failure, but any later emission overwrites it with the size
  failure (native/wtop_gpu_worker.c:28), so the reason a collection gives may be the wrong one of the two. The model
  keeps the code's behaviour: `GpuOutput.Output.Emit` says when an operation fails and what an earlier failure becomes.
- A slot's `users` does not always equal the number of jobs whose `shared_image` is set: a release lowers the count
  under the lock and clears the flag after it (native/wtop_worker_image_cache.h:84-89). `ImageCache.CountExact` gives
  the exact condition, `ImageCache.CountRunsAhead` a run where the two differ. The count is exact for the references
  themselves.
- `relate` leaves CPU Set rows with a known core and no siblings when the observation was not stable
  (native/wtop_windows_cpu.c:293). Such rows are not published (line 412). `CpuTopology.Capture.Relate` proves that
  rows are coherent exactly when the observation was stable or had no such rows; `CpuTopology.UnstableIncoherent` is
  the failing case.
- A package number may stand for two packages: it is that of the record's first processor, and two different package
  records may start with the same one, which is then in neither (native/wtop_windows_cpu.c:287-301). Their other
  processors come out under one number, and a core over both counts as within one package; the result is marked
  partial. `CpuNumbers.SameNumber` says exactly when two numbers are equal, `CpuNumbers.PackagesTold` that with every
  package known they are only for one package, `CpuNumbers.SharedNumber` is the failing case.
- The overflow test of `wtop_status_uint` lets a digit above the bound through when the bound is below nine
  (native/wtop_linux_process_status.h:57): C division rounds towards zero, so asked for at most 5 it accepts 9.
  `StatusNumbers.BoundKept` shows when the bound is kept; every bound in use is larger.
- A disk row that matches a still-present entry does not always keep its generation: when one disk is found under two
  numbers, its second row gets a new one (native/wtop_windows_disk.c:340-350). `DiskGenerations.Disks.Collect` proves
  which rows keep theirs, `DiskGenerations.WhoKeeps` that only such twins lose, `DiskGenerations.TwinLoses` is the
  failing case.
- A controller can end up with a descriptor that is not open: if something else in the process closes the job's own
  executable while it waits for the lock, and the copy of the cached one gets the same number, closing the former
  closes the copy (native/wtop_worker_image_cache.h:69-73). `ImageCache.SharedCopy` gives the exact condition,
  `ImageCache.CopyLost` a run. If the cache itself got the number meanwhile, the same line closes the cached
  descriptor while it is in use: `ImageCache.InstallClosesCached` is exact, `ImageCache.CacheClosed` a run.
- A collection that fails because the driver has gone does not leave the cursors alone: it closes the session and
  clears them (native/wtop_nvml.c:587). The next samples then count from the driver's buffer again.
  `NvmlCollect.Nvml.Collect` states both cases on the status of the count, `NvmlCollect.LostClears` runs one. The
  energy reader does the same outside the worker (native/wtop_levelzero.c:416): `LevelZeroEnergy.Reader.Query` states
  on the driver's answers when it does, `LevelZeroEnergy.LostClears` runs it.
- The energy reader looks at the mark for a lost driver only behind an accepted device. A loss while identifying a
  repeated device at the end of the list is committed over (native/wtop_levelzero.c:359-365,
  `LevelZeroEnergy.CommittedAndLost`) and fails the next collection that has a device.
- A disk that a health query was told to skip does not make its listing partial (native/wtop_windows_disk.c:322), so
  it counts as not found and its entry is marked absent. `DiskGenerations.Gather` has it that way, and
  `DiskGenerations.SkipForgets` runs such a disk to its new generation.

## Model

The first 67 rows are the main results; the rows behind them, module by module, are the operations and steps they
rest on.

| member | source | states |
|---|---|---|
| GpuWire.WireValid | native/wtop_gpu_protocol.h:39-74 | the in-place validator accepts a byte string if and only if it encodes a balanced, bounded operation sequence |
| GpuWire.DecodeEncodedAll | native/wtop_gpu_worker.c:37-50 | every encodable operation sequence is read back exactly from its encoding |
| GpuWire.EncodeDecodedAll | native/wtop_gpu_protocol.h:42-72 | every byte string that decodes is the encoding of what it decodes to |
| GpuReplay.ReplaySafe | native/wtop_gpu_lua.h:6-20 | an accepted stream runs to the end without ever attaching, indexing or discarding at the root and leaves exactly one root table |
| GpuReplay.WireReplayIsDirect | native/wtop_worker_client.c:451-467 | decoding the encoding of a balanced sequence and emitting the sequence straight into Lua end with one and the same nested table |
| GpuOutput.Output.Emit | native/wtop_gpu_worker.c:37-50 | appends exactly the encoding of the operation, unless an earlier one failed, it cannot be encoded, 16 MiB leave no room, or the buffer has to grow and there is no memory; a failure is remembered |
| NvmlProcesses.CollectProcesses | native/wtop_nvml.c:342-424 | records, summaries and samples together; the truncation mark is set exactly when a list was cut, a listed process or a sampled one has no row |
| NvmlCollect.Nvml.Collect | native/wtop_nvml.c:581-728 | whatever the driver replies, a collection has a reason exactly if opening, counting or the output failed; without one it has written a buffer the validator accepts that says exactly what the driver reported, and committed a cursor for every steady device; with one the cursors are left alone, or cleared if the driver has gone |
| NvmlCollect.CollectAndDecode | native/wtop_nvml.c:581-728 | from the driver's answers through the checked bytes to the parent's table: what the parent holds is the report of the driver's answers |
| NvmlCollect.UnmarkedIsComplete | native/wtop_nvml.c:699-723 | a reply without the partial mark has every device at its place, every listed process and every sampled process |
| NvmlFields.UtilizationFields | native/wtop_nvml.c:631-635 | "utilization_percent" is the GPU value the driver answered and "memory_utilization_percent" the memory value, each exactly if it is at most 100 |
| NvmlFields.HeadlineFields | native/wtop_nvml.c:554-570 | "power_watts" and its quality are those published for the instant, unless there are none or only the average is fresh, then the average's; without either the device's own sample below 10^8 mW |
| NvmlFields.PciFields | native/wtop_nvml.c:618-630 | "pci_bdf" is the address in the first of the two texts that is one, printed anew, exactly if its numbers are in range and the driver's own; "vendor_id" and "device_id" are the low and the high half of the identifier in four digits |
| NvmlFields.RowFields | native/wtop_nvml.c:669-678 | the row of a process: its kind says which of the two lists names it; its size is the largest below 2^50 of its records, an estimate exactly if a context exceeds all the device's own figures and is not its only record |
| NvmlFields.ReportedMeans | native/wtop_nvml.c:598-716 | a device is read exactly if it answers and no earlier one held its UUID, and reported exactly if it also gives the UUID again afterwards, in terms of the texts the driver answered |
| NvmlFields.NextAsksSince | native/wtop_nvml.c:603-610 | after a committed collection the next one asks for samples since the newest one delivered under that UUID, or from the beginning if no device held it |
| ImageCache.InvRun | native/wtop_worker_image_cache.h:39-91 | after any interleaving of any number of jobs users equals the jobs holding a reference, users is zero iff the descriptor is -1, and holders agree on the executable |
| ImageCache.CountExact | native/wtop_worker_image_cache.h:84-89 | users equals the number of jobs with their flag set if and only if no job is between giving its reference back and clearing its flag |
| ImageCache.ReleaseSafe | native/wtop_worker_image_cache.h:78-91 | a release clears the slot exactly when it is the last, and closes a descriptor only if it still refers to the cached executable and this was the last reference |
| ImageCache.SharedCopy | native/wtop_worker_image_cache.h:44-75 | a job given a reference ends up with an open descriptor of the cached executable, write-protected when taken from the cache, if and only if the copy did not get the number of the job's own descriptor |
| ImageCache.HoldersShareImage | native/wtop_worker_image_cache.h:44-75 | in every reachable state all holders of a slot were given the same executable |
| CpuidJobs.InvRun | native/wtop_windows_cpuid.c:199-231 | after any interleaving of contexts and workers reference counts, the worker count and published results are right |
| CpuidJobs.AtMostTwo | native/wtop_windows_cpuid.c:210-216 | in every reachable state at most two workers are admitted, and the counter is exact once refused contexts have stepped back |
| CpuidJobs.FreedOnce | native/wtop_windows_cpuid.c:37-39 | a job is freed at most once, and has been freed exactly when both its owners have let go |
| CpuidJobs.NoUseAfterFree | native/wtop_windows_cpuid.c:199-231 | no step of a context or a worker touches a freed job |
| CpuidJobs.OkIsValid | native/wtop_windows_cpuid.c:220-230 | every result published as ok is the packet of a finished job that passed validation for exactly the requested targets |
| CpuidPacket.ValidPacket | native/wtop_windows_cpuid.c:53-71 | accepts a message if and only if it is a well-formed answer for exactly the requested targets and architecture |
| CpuidPacket.AnswerUnique | native/wtop_windows_cpuid.c:53-71 | an accepted message decodes to one list of processors and leaves only |
| CpuidCapture.Build | native/wtop_cpuid_helper.c:63-80 | for up to 512 targets a message that is sent fits 2 MiB, answers exactly those targets with exactly what was captured, and is complete wherever it claims success unmarked; none is sent exactly when time is up or the output is closed |
| RemovableProbes.InvRun | native/wtop_windows.c:1867-1916 | after any interleaving at most two workers run, remembered readings are current, and discarded workers really run |
| RemovableProbes.Published | native/wtop_windows.c:1966-1969 | in every reachable state what may be published for a letter is what a worker started since its latest change had stored |
| RemovableProbes.OneSide | native/wtop_windows.c:1867-1895 | while a letter's worker runs no collector step touches its buffer, and a worker touches nothing else |
| RemovableProbes.Mounts.PushMountRecords | native/wtop_windows.c:1918-2041 | a whole collection: all rows sourced from this letter's workers, current when every letter is listed once, and then showing the result just finished, what was remembered, or nothing after a change of kind; unlisted letters are forgotten |
| DiskGenerations.Disks.Collect | native/wtop_windows_disk.c:338-427 | one collection: distinct generations; a row keeps a matching entry and its generation if and only if those entries outnumber its earlier rivals, and has a generation never issued before otherwise; entries are only marked absent after a complete listing |
| DiskGenerations.WhoKeeps | native/wtop_windows_disk.c:324-329 | among listed disks only earlier ones with the same identified signature compete, so a disk without such a twin keeps an entry exactly when one matches |
| DiskGenerations.Session | native/wtop_windows_disk.c:158-181 | over any sequence of collections reports with the same generation are about the same disk signature |
| DiskGenerations.FoundAgain | native/wtop_windows_disk.c:338-427 | a disk that two collections find, each in one row only, is reported under one generation if the first listing was complete |
| ProcessCaches.Session | native/wtop_windows.c:1197-1281 | over any sequence of stores and lookups a lookup answers what was last stored for exactly its key, and misses only a key never stored or one that a store took the way of since, from a full bucket as one of greatest wrapped age |
| ProcessCaches.Cache.EntryFor | native/wtop_windows.c:1197-1222 | finds the key's own way, or a vacant one, or in a full bucket one of greatest wrapped age |
| ProcessCaches.Cache.Find | native/wtop_windows.c:1251-1259 | a hit is what was last stored for exactly this key |
| WifiAttributes.AnswerExact | native/wtop_linux_wifi.h:71-95 | a lookup succeeds if and only if aligned attributes tile the view and the key occurs at most once |
| WifiAttributes.WrittenFound | native/wtop_linux_wifi.h:126-140 | in a buffer written with distinct keys each key gives back its value |
| WifiExchange.DumpComplete | native/wtop_linux_wifi.h:215-236 | a dump completes if and only if up to an error-free end marker there are only its own accepted data messages and messages to be ignored; all payloads have then been delivered once and in order |
| WifiExchange.PackingDoesNotMatter | native/wtop_linux_wifi.h:182-238 | within the limits, how messages are packed into datagrams does not change the outcome |
| WifiRead.TwoDumpsMatch | native/wtop_linux_wifi.h:289-355 | two dumps pass both checks and the count if and only if both are clean and their associations are rearrangements of each other, at most sixteen, with distinct addresses |
| WifiRead.ReadIsConsistent | native/wtop_linux_wifi.h:371-437 | a reading that succeeds is about one interface, the same before and after, and its links are exactly the associations both dumps agree on |
| WifiReports.MessageMeans | native/wtop_linux_wifi.h:289-324 | a scan message is taken for an association exactly if it carries this interface and an access point whose status is associated, with exactly the identity its attributes carry; it is passed over exactly if the access point is missing or has no or another status |
| WifiReports.ReadingMeans | native/wtop_linux_wifi.h:371-437 | a reading that succeeds found one unchanged client interface; its links are exactly what the messages of the first dump report, in order, those of the second report the same identities, and the station part fits the links |
| LevelZeroEnergy.Session | native/wtop_levelzero.c:344-395 | over any sequence of collections, the energy published for a power handle while its readings are unbroken is the advance between the cursor remembered at the start and that at the end, and every published interval lies between 100 ms and 5 s |
| LevelZeroEnergy.Reader.Collect | native/wtop_levelzero.c:344-395 | a collection commits exactly if the enumeration succeeds, the driver is not lost up to and with any accepted device, and the output has room; then one report covers every accepted device and all cursors are committed, otherwise none changes; the mark for a lost driver afterwards is exact |
| LevelZeroEnergy.Telescopes | native/wtop_levelzero.c:193-215 | over any unbroken stretch the published energy is the advance between its first and last cursor |
| LevelZeroEnergy.Recovers | native/wtop_levelzero.c:193-215 | after any cursor and any reading but a short poll, a reading that follows within 100 ms to 5 s at a plausible rate is published with the energy between the two |
| CpuTopology.Capture.Relate | native/wtop_windows_cpu.c:291-329 | rows end up coherent if and only if the observation was stable or had no CPU Set rows; without the partial mark everything is known |
| CpuNumbers.ReconciledMeans | native/wtop_windows_cpu.c:291-329 | a package is known exactly if one usable package record covers the row and no known core over it spans two packages; a core is the CPU Set's unless core records contradict it, else that of the one usable core record; the number of either is group times 64 plus index of the record's first row |
| CpuNumbers.PackagesTold | native/wtop_windows_cpu.c:291-329 | with every package known, rows carry the same package number exactly if the same usable record covers both |
| StatusSpans.Spans | native/wtop_linux_process_status.h:15-39 | succeeds if and only if the text is at most 256 KiB, no line's key run meets a byte of 128 or more, and at most 96 keyed lines have distinct keys; fields are then the lines of their keys |
| StatusSpans.FieldsMean | native/wtop_linux_process_status.h:15-39 | each field of an accepted text is the one line that starts with its name and a colon, whole, or empty when there is none |
| StatusNumbers.CountRange | native/wtop_linux_process_status.h:62-75 | succeeds if and only if the list is well formed, ascending and names at most 4096 identifiers; returns how many some range of it names |
| StatusNumbers.ItemsMean | native/wtop_linux_process_status.h:62-75 | a text is a list exactly if it is numbers up to 65535, or pairs of them, with commas between, and then it names what they say |
| ProcStat.StatRoundTrip | native/wtop_native.c:1727-1814 | every printable record gives back its number, name, state and published fields |
| ProcStat.StatExactly | native/wtop_native.c:1727-1814 | a printed record is read exactly if its number is in range, it has a name, and its numbers are at least 21, the published ones of 64 bits and not negative where they count something |
| ProcStat.StartTimeRoundTrip | native/wtop_native.c:2173-2208 | extracts the printed start time, and only for the expected process |
| ProcStat.Integer | native/wtop_native.c:1706-1722 | accepts exactly the decimal strings of the signed 64-bit range, minimum included |
| NaturalOrder.NaturalTotal | native/wtop_macos_sensors.c:207-228 | the label order is a total order |
| NaturalOrder.NaturalCompare | native/wtop_macos_sensors.c:207-228 | the pointer loop computes the order of the labels, whose meaning NumbersAsNumbers and BytesAsBytes state |
| NaturalOrder.NumbersAsNumbers | native/wtop_macos_sensors.c:209-219 | behind any common prefix digit runs compare as the numbers they stand for, by length if those are equal, and equal runs leave it to the rests |
| NaturalOrder.ReadingTotal | native/wtop_macos_sensors.c:229-237 | the readings' order is total and distinguishes rows of different ordinals |
| GpuWire.DecodeEncoded | native/wtop_gpu_worker.c:37-50 | decoding the bytes of one operation, anywhere in a buffer, gives that operation and the position behind it |
| GpuWire.EncodeDecoded | native/wtop_gpu_protocol.h:42-72 | what decodes as an operation is exactly the encoding of that operation |
| GpuWire.CheckIsDecodeAndRun | native/wtop_gpu_protocol.h:42-72 | checking bytes one operation at a time agrees with decoding them all and running the machine |
| GpuWire.CheckIsAccepts | native/wtop_gpu_protocol.h:39-74 | the incremental check accepts exactly the encodings of balanced sequences whose keys, hints, indices, texts, numbers, tables, entries and operation count are in bounds |
| GpuWire.WireKey | native/wtop_gpu_protocol.h:54-57 | accepts a key exactly when length and bytes are legal, and moves the cursor behind it |
| GpuWire.WireValue | native/wtop_gpu_protocol.h:60-71 | accepts a payload exactly when the operation decoded there is a legal one |
| GpuWire.WireKeyed | native/wtop_gpu_protocol.h:54-71 | one keyed operation: same verdict, cursor and entry counts as the specified step |
| GpuWire.WireOperation | native/wtop_gpu_protocol.h:43-71 | one operation: same verdict, cursor, depth and entry counts as the specified step |
| GpuReplay.RunAgrees | native/wtop_gpu_lua.h:6-20 | operations the validator allows never fail on the Lua stack, whose height stays the validated depth |
| GpuReplay.LuaState.SetTable | native/wtop_gpu_lua.h:11-12 | attaching pops the top table and stores it in the one below |
| GpuReplay.LuaState.Emit | native/wtop_gpu_lua.h:6-20 | one operation on the real stack is the specified stack step |
| GpuReplay.LuaState.Replay | native/wtop_gpu_lua.h:6-20 | one turn of the parent's loop, which checks nothing itself, is the specified stack step of the operation decoded there |
| GpuReplay.DecodeFrame | native/wtop_worker_client.c:451-467 | the parent's unchecked decoder reads only inside an accepted frame and builds the table of its operations |
| GpuOutput.Output.constructor | native/wtop_gpu_worker.c:21 | an empty buffer stands for the empty operation sequence |
| GpuOutput.Output.Reset | native/wtop_gpu_worker.c:21 | forgets the contents and the failure |
| GpuOutput.Output.Reserve | native/wtop_gpu_worker.c:26-36 | keeps every earlier byte while the capacity doubles, never exceeds 16 MiB, and marks failure instead of overrunning |
| GpuOutput.Output.Put | native/wtop_gpu_worker.c:40-42 | appends bytes behind the written part and leaves the rest alone |
| GpuOutput.Output.Write | native/wtop_gpu_worker.c:43-49 | the bytes written for an operation are its encoding; it fails exactly if an earlier one did, 16 MiB leave no room, or the buffer has to grow and there is no memory |
| GpuOutput.Output.IntegerField | native/wtop_gpu_output.h:19-21 | stores the integer under its name in the innermost table and spends one entry |
| GpuOutput.Output.NumberField | native/wtop_gpu_output.h:22-24 | stores the number under its name in the innermost table and spends one entry |
| GpuOutput.Output.StringField | native/wtop_gpu_output.h:25-27 | stores the text under its name in the innermost table and spends one entry |
| GpuOutput.Output.BooleanField | native/wtop_gpu_output.h:28-30 | stores the truth value under its name in the innermost table and spends one entry |
| GpuOutput.Output.OpenTable | native/wtop_gpu_output.h:16-18 | opens an empty table above the current one |
| GpuOutput.Output.Attach | native/wtop_gpu_output.h:31-33 | closes the innermost table into a named field of the one around it |
| GpuOutput.Output.AttachIndex | native/wtop_gpu_output.h:34-36 | closes the innermost table into an index of the one around it |
| GpuOutput.Output.Drop | native/wtop_gpu_output.h:37-39 | closes the innermost table and throws it away |
| GpuOutput.BufferAccepted | native/wtop_gpu_protocol.h:39-74 | a buffer that holds the encoding of a balanced sequence is accepted by the validator |
| NvmlText.PciAddress | native/wtop_nvml.c:436-456 | an address text is malformed, foreign to the driver's own numbers, or confirmed and printed anew |
| NvmlText.LocatedReadsBack | native/wtop_nvml.c:450-454 | a published address is an address again, reads back as the driver's domain, bus and device, and keeps the function of the text it came from |
| NvmlProcesses.ProcessList | native/wtop_nvml.c:313-341 | the first entry point that is not absent, unsupported or not found decides the list; truncation is marked exactly when an asked one had more than fits |
| NvmlProcesses.MergeList | native/wtop_nvml.c:348-366 | one list merged into the records: the records represent exactly the earlier reports and this list's |
| NvmlProcesses.CollectRecords | native/wtop_nvml.c:346-367 | over both lists, one record per process and instance pair, with the lists that named it and the largest size reported, nothing added up |
| NvmlProcesses.TabulateRecords | native/wtop_nvml.c:368-389 | at most 256 rows with distinct processes, each an exact summary; the truncation mark is set exactly when a process is missing |
| NvmlProcesses.TotalIsLargest | native/wtop_nvml.c:391-394 | the published size is the largest accepted report of the process |
| NvmlProcesses.TotalRows | native/wtop_nvml.c:390-397 | every row gets its total, in place and in order |
| NvmlProcesses.AddSamples | native/wtop_nvml.c:398-421 | every row carries the newest usable sample of its process, sizes untouched; the cursor is the newest recent timestamp; the truncation mark is set exactly when there were more samples than fit or a sampled process has no row |
| NvmlProcesses.ListingMeans | native/wtop_nvml.c:313-341 | the first entry point that is neither absent nor unsupported or not found decides, and delivers only a success of at most 256 entries; the oldest one without instances |
| NvmlProcesses.SourcesMean | native/wtop_nvml.c:348-389 | a process is counted as computing or drawing exactly if the list of that kind names it |
| NvmlProcesses.EstimatedMeans | native/wtop_nvml.c:390-397 | the size is marked as an estimate exactly if a context exceeds all the device's own figures and is not the only record |
| NvmlDevice.DeviceNames | native/wtop_nvml.c:613-617 | the table gains the index, and UUID and name where they are known, within three entries |
| NvmlDevice.DevicePci | native/wtop_nvml.c:618-630 | the table gains the confirmed address of the current text, of the legacy text only if the current one is no address, and the two halves of the identifier |
| NvmlDevice.DeviceUtilization | native/wtop_nvml.c:631-635 | the table gains the percentages that are at most 100 |
| NvmlDevice.DeviceMemory | native/wtop_nvml.c:636-643 | the table gains a believable total, a use only within that total, and a temperature below 1000 |
| NvmlDevice.DevicePower | native/wtop_nvml.c:532-574 | the table gains both field readings with their qualities, the headline reading and the limit, within twelve entries |
| NvmlDevice.DevicePcie | native/wtop_nvml.c:509-530 | the table gains generations from 1 to 32, widths up to 64, the rates that are known, and their interval exactly if there is one |
| NvmlDevice.DeviceClocks | native/wtop_nvml.c:646-654 | the table gains the clocks below 100 GHz, and a maximum only if it is not zero |
| NvmlDevice.DeviceState | native/wtop_nvml.c:655-661 | the table gains a fan speed up to 100 and a performance state up to 15 |
| NvmlDevice.ClockEvents | native/wtop_nvml.c:467-481 | the table gains one table of both statuses and sources, with each mask only if its query succeeded |
| NvmlDevice.HeadlineIsFreshest | native/wtop_nvml.c:554-560 | the headline is one of the usable readings with its own quality, is fresh exactly when one of them is, and is then at most five seconds old and at most one second ahead of the clock |
| NvmlDevice.MaskQuery | native/wtop_nvml.c:457-466 | the older entry point answers when the newer one is absent, unsupported or not found |
| NvmlCollect.EmitContext | native/wtop_nvml.c:682-689 | the context under the next index: its instances and size where known, and its kind |
| NvmlCollect.EmitContexts | native/wtop_nvml.c:679-691 | the contexts of one process in record order, in one closed table |
| NvmlCollect.EmitRow | native/wtop_nvml.c:670-701 | one process row: size with quality and scope, contexts, and its newest sample |
| NvmlCollect.EmitRows | native/wtop_nvml.c:669-702 | all rows of a device, numbered from one, within 256 entries and 512 contexts |
| NvmlCollect.EmitProcesses | native/wtop_nvml.c:664-704 | the process rows the device's lists support, whether any are missing, and the cursor the samples earn |
| NvmlCollect.EmitDevice | native/wtop_nvml.c:611-705 | the table of one device, all sections in it, within the per-device budget |
| NvmlCollect.FindKept | native/wtop_nvml.c:608-609 | the remembered timestamp of a device is that of the last cursor with its UUID |
| NvmlCollect.DeviceRound | native/wtop_nvml.c:598-716 | a device is reported exactly if it answers, repeats no reported UUID and still has its own afterwards; otherwise nothing of it is left |
| NvmlCollect.EmitDevices | native/wtop_nvml.c:597-718 | all reported devices, numbered in the driver's order, within the limits; the partial and truncated marks are set exactly when a device is missing or one that was read has processes missing |
| NvmlCollect.Nvml.WriteReply | native/wtop_nvml.c:593-724 | on every path the reply is balanced and is the report of the driver's answers |
| NvmlCollect.ContextsAt | native/wtop_nvml.c:679-690 | each record of a process is its own context, under its number among them |
| NvmlCollect.RowsAt | native/wtop_nvml.c:669-701 | row i is under number i + 1, and there is nothing else |
| NvmlCollect.Nvml.Close | native/wtop_nvml.c:210-214 | closing the session forgets every cursor |
| NvmlCollect.LostClears | native/wtop_nvml.c:587 | a cursor a collection committed is gone after one that finds the driver gone |
| NvmlFields.IdentityFields | native/wtop_nvml.c:601-617 | a reader finds under "index" the driver's index, and under "uuid" and "name" exactly the terminated texts the driver answered, the former below 128 bytes |
| NvmlFields.MemoryFields | native/wtop_nvml.c:636-645 | "memory_total_bytes" is the total exactly if below 2^50, "memory_used_bytes" the use exactly if within that total, "temperature_celsius" the temperature exactly if below 1000 |
| NvmlFields.InstantFields | native/wtop_nvml.c:482-547 | the reading of the instant is published exactly if the driver measured field 186 over the whole GPU, in a known format, below 10^8 mW, as fresh, stale or without a usable time by its age |
| NvmlFields.AverageFields | native/wtop_nvml.c:482-553 | the same for the one-second average in field 185, with its interval |
| NvmlFields.LimitField | native/wtop_nvml.c:571-573 | "power_limit_watts" is the limit exactly if it is positive and below 10^8 mW |
| NvmlFields.PcieFields | native/wtop_nvml.c:509-530 | each link field is the driver's answer exactly if it is within its bounds; the interval is there exactly if a rate is |
| NvmlFields.StateFields | native/wtop_nvml.c:646-661 | each clock below 100 GHz, a maximum unless zero, a fan speed up to 100, and P with the number of a performance state up to 15 |
| NvmlFields.EventFields | native/wtop_nvml.c:467-481 | status, source and mask of both queries are those of the older entry point exactly if it exists and the newer one is absent, unsupported or not found; a mask exactly with a success |
| NvmlFields.NoOtherFields | native/wtop_nvml.c:611-705 | a device table has no fields but these |
| NvmlFields.ProcessFields | native/wtop_nvml.c:702-703 | a device table has its process rows and their truncation mark exactly if processes were asked for |
| NvmlFields.ContextFields | native/wtop_nvml.c:679-690 | each record of a process under its number: the instances that are known, the size below 2^50, and which lists name it |
| NvmlFields.SampleFields | native/wtop_nvml.c:692-699 | a row carries one of the newest samples of its process that are newer than the last published one and percentages throughout, and none exactly if there is none |
| NvmlFields.DeviceAt | native/wtop_nvml.c:597-718 | a reported device is found behind the reported ones before it |
| NvmlFields.OnlyDevices | native/wtop_nvml.c:597-718 | nothing else is in the device list |
| NvmlFields.CountMeans | native/wtop_nvml.c:716 | the number of an entry counts the reported devices before it |
| NvmlFields.ReplyFields | native/wtop_nvml.c:593-724 | version, source, status, reason and truncation mark of a reply, on the driver's answers |
| ImageCache.InvStep | native/wtop_worker_image_cache.h:39-91 | lookup, construction, install, release and outside interference each keep: users equals the jobs holding a reference, users is zero iff the descriptor is -1, and holders agree on the executable |
| ImageCache.CountRunsAhead | native/wtop_worker_image_cache.h:84-89 | a reachable state in which the flags outnumber users by one |
| ImageCache.Controllers.AcquireLookup | native/wtop_worker_image_cache.h:44-50 | the first locked region is the lookup step |
| ImageCache.Controllers.AcquireInstall | native/wtop_worker_image_cache.h:58-75 | the second locked region is the install step, and returns the descriptor the job ends up with |
| ImageCache.Controllers.ReleaseImage | native/wtop_worker_image_cache.h:78-88 | the locked region of a release is the release step |
| ImageCache.CopyLost | native/wtop_worker_image_cache.h:69-73 | a reachable state in which it did, because something else had closed the job's own descriptor |
| ImageCache.InstallClosesCached | native/wtop_worker_image_cache.h:69-73 | an installation that shares closes the cached descriptor, which stays in use, if and only if the job's own descriptor has its number |
| ImageCache.CacheClosed | native/wtop_worker_image_cache.h:69-73 | a reachable state in which it did, two jobs holding the slot |
| CpuidPacket.RecordWritten | native/wtop_windows_cpuid.c:62-68 | a written processor record reads back as its fields and leaves |
| CpuidPacket.RecordRead | native/wtop_windows_cpuid.c:62-68 | a record read from any bytes writes back to the same bytes |
| CpuidPacket.Checksum | native/wtop_cpuid_protocol.h:40-44 | the loop computes the 32-bit FNV-1a of the rest of the message |
| CpuidPacket.ReadRecord | native/wtop_windows_cpuid.c:61-66 | accepts a record exactly when it is in bounds, about the expected processor and internally consistent |
| CpuidCapture.Reader.Add | native/wtop_cpuid_capture.h:13-17 | adds one leaf, or marks a full list, or time is up |
| CpuidCapture.Reader.Enumerate | native/wtop_cpuid_capture.h:18-26 | adds consecutive subleaves up to the first terminator, or sets the truncation flag; never more than 32 or 16 |
| CpuidCapture.Reader.Snapshot | native/wtop_cpuid_capture.h:27-70 | never drops a leaf or a flag; a record that claims success is marked, late, or has every basic, extended, announced, topology and cache leaf the processor calls for |
| CpuidCapture.Capture | native/wtop_cpuid_helper.c:29-49 | whatever the processor and the system answer, the record is one the parent believes for this target |
| CpuidCapture.CompleteLeaves | native/wtop_cpuid_capture.h:27-70 | a complete record has these basic and extended leaves as far as the processor's ranges go, and the subleaves leaf 7 announces |
| CpuidJobs.InvStep | native/wtop_windows_cpuid.c:37-44 | every interlocked step of every context and worker keeps reference counts, the worker count and published results right |
| CpuidJobs.ThreadSettles | native/wtop_windows_cpuid.c:146-147 | a finished job's result and request never change again |
| CpuidJobs.UnfinishedKept | native/wtop_windows_cpuid.c:200-206 | a collection lets go of a job only after seeing it done |
| CpuidJobs.OneUnfinished | native/wtop_windows_cpuid.c:203-206 | a context never has two unfinished jobs |
| RemovableProbes.InvStep | native/wtop_windows.c:1867-1916 | every step of the collector and of every worker keeps: at most two workers, remembered readings current, discarded workers really running |
| RemovableProbes.Mounts.CollectCompleted | native/wtop_windows.c:1882-1895 | every ended worker is taken over or discarded, others are left alone |
| RemovableProbes.Mounts.StartProbe | native/wtop_windows.c:1898-1916 | starts a worker, reports a full house or a failed start; counts the running ones |
| RemovableProbes.Mounts.PushDrive | native/wtop_windows.c:1932-1982 | one drive: the kind is noted, a worker started when due, and the row shows the remembered, direct or no reading |
| RemovableProbes.Mounts.Forget | native/wtop_windows.c:2033-2040 | a letter that was not listed loses its reading and its worker is marked for discard |
| RemovableProbes.Mounts.PushDrives | native/wtop_windows.c:1932-2032 | one row per present drive, in order |
| RemovableProbes.StartsWhenDue | native/wtop_windows.c:1898-1975 | a worker is started for a removable drive exactly if its letter has none, fewer than two have one, and nothing is remembered of the drive or its reading is thirty seconds old, five if incomplete |
| DiskGenerations.FreeSlot | native/wtop_windows_disk.c:352-357 | with at most 256 rows an unused slot always exists |
| DiskGenerations.Disks.Keep | native/wtop_windows_disk.c:340-350 | the first pass gives every row the first matching entry nobody took, and leaves none it could have had |
| DiskGenerations.Disks.Choose | native/wtop_windows_disk.c:353-357 | an absent entry if there is one, else any not in use |
| DiskGenerations.Disks.Place | native/wtop_windows_disk.c:351-363 | the second pass gives every other row a slot of its own and a new generation, and touches no kept entry |
| DiskGenerations.Disks.Publish | native/wtop_windows_disk.c:367-424 | every unambiguous row is reported once, in order, under distinct generations that stand for its signature |
| DiskGenerations.Disks.Forget | native/wtop_windows_disk.c:427 | marks exactly the entries not found as absent |
| DiskGenerations.Gather | native/wtop_windows_disk.c:306-332 | the rows are the first disks that fit; rows with a number that occurs twice are ambiguous; the marks are set exactly when something was not read, read badly or is ambiguous |
| DiskGenerations.KeptExactly | native/wtop_windows_disk.c:340-350 | in the first pass an unambiguous row finds an entry if and only if the entries it matches outnumber the earlier rows that want the same ones |
| DiskGenerations.TwinLoses | native/wtop_windows_disk.c:340-350 | a disk found under two numbers: the second row matches a present entry and does not keep it |
| DiskGenerations.SkipForgets | native/wtop_windows_disk.c:322 | a disk that one listing skips has a new generation in the next |
| DiskGenerations.SignatureMeans | native/wtop_windows_disk.c:158-163 | signatures are the same exactly if they are equal, but for an identifier neither disk has |
| ProcessCaches.InvStore | native/wtop_windows.c:1271-1281 | storing keeps keys unique, in their bucket and faithful to what was last stored |
| ProcessCaches.Cache.Store | native/wtop_windows.c:1296-1306 | writes exactly one way of the key's bucket |
| ProcessCaches.Evicted | native/wtop_windows.c:1212-1221 | an eviction forgets the evicted key |
| ProcessCaches.OwnerLookup | native/wtop_windows.c:1251-1269 | answers with the stored owner while it is fresh, and misses only when it is stale or unknown |
| ProcessCaches.PathLookup | native/wtop_windows.c:1394-1407 | answers with the stored path for ever, with a stored failure for five seconds |
| ProcessCaches.CachedOwner | native/wtop_windows.c:1285-1308 | the owner returned was read for this process number and start time and is fresh |
| ProcessCaches.CachedPath | native/wtop_windows.c:1421-1445 | the path returned was read for this process number and start time |
| ProcessCaches.DenyOwner | native/wtop_windows.c:1271-1281 | remembers a refusal |
| ProcessCaches.DenyPath | native/wtop_windows.c:1409-1419 | remembers a refusal |
| ProcessCaches.OwnerStays | native/wtop_windows.c:1256-1262 | while the tick count does not come round, a known owner is good for thirty seconds and a failed lookup for five |
| ProcessCaches.PathStays | native/wtop_windows.c:1397-1401 | a path that was found is good for ever, a failed lookup for five seconds |
| WifiAttributes.ParseWritten | native/wtop_linux_wifi.h:126-140 | any list of attributes written out is read back |
| WifiAttributes.WriteParsed | native/wtop_linux_wifi.h:71-95 | bytes that parse are exactly the attributes they parse to, padding included |
| WifiAttributes.OthersAbsent | native/wtop_linux_wifi.h:126-140 | in such a buffer every other key is absent |
| WifiAttributes.WireAllSnoc | native/wtop_linux_wifi.h:126-140 | one more write extends the written list by one attribute |
| WifiAttributes.Put | native/wtop_linux_wifi.h:126-140 | appends one padded attribute, or fails and changes nothing, exactly when it does not fit |
| WifiAttributes.Find | native/wtop_linux_wifi.h:71-95 | the cursor loop computes the specified lookup |
| WifiAttributes.FindWord | native/wtop_linux_wifi.h:97-106 | a 32-bit value is refused in the wrong size or byte order |
| WifiExchange.Receive | native/wtop_linux_wifi.h:201-237 | one datagram is cut and judged message by message |
| WifiExchange.Exchange | native/wtop_linux_wifi.h:182-239 | the receiving loop computes the specified outcome and deliveries |
| WifiExchange.ExchangeAgreed | native/wtop_linux_wifi.h:234-236 | however an exchange ends short of failing, the handler has accepted every payload; a single reply that completes is one payload |
| WifiExchange.MessagesSent | native/wtop_linux_wifi.h:201-214 | a datagram of messages written one behind the other is cut into exactly these |
| WifiExchange.ControlMeans | native/wtop_linux_wifi.h:215-228 | what acknowledgements, error codes, end markers and interrupted dumps do, on their numbers |
| WifiExchange.DataMeans | native/wtop_linux_wifi.h:229-237 | what any other message does |
| WifiExchange.KindsMean | native/wtop_linux_wifi.h:215-237 | which messages are data of a dump, without effect, or its end, on their numbers |
| WifiScan.Message | native/wtop_linux_wifi.h:289-324 | one scan message is malformed, of no interest or an association, with every identity field as sent |
| WifiScan.Association.Record | native/wtop_linux_wifi.h:345-354 | the first pass adds a link unless there are sixteen, it is too large or its address is known |
| WifiScan.Association.Verify | native/wtop_linux_wifi.h:326-343 | the second pass accepts an association exactly when it is an unseen link identical in every field |
| WifiScan.Association.Scan | native/wtop_linux_wifi.h:289-355 | the handler of both passes |
| WifiScan.Association.Dump | native/wtop_linux_wifi.h:408-435 | a dump succeeds exactly when all its messages do |
| WifiScan.Association.Read | native/wtop_linux_wifi.h:408-437 | two dumps and the count check succeed exactly when the second repeats the first; every link has then been verified |
| WifiScan.MatchedIsBijection | native/wtop_linux_wifi.h:434-436 | the check of two dumps passes if and only if their associations are rearrangements of each other, at most sixteen and with distinct addresses |
| WifiRead.CheckInterface | native/wtop_linux_wifi.h:269-287 | the interface is the same if and only if six fields are there on both sides, equal, of the right size and in host order, and the name is the one asked for |
| WifiRead.ReadStation | native/wtop_linux_wifi.h:410-427 | the station is asked for if all links are about one peer; three kinds of refusal are noted, any other failure ends the reading |
| WifiRead.Confirm | native/wtop_linux_wifi.h:429-436 | the second look and the second dump succeed as specified |
| WifiRead.ReadAssociations | native/wtop_linux_wifi.h:408-437 | both passes and the station between them compute the specified outcome |
| WifiRead.ReadWifi | native/wtop_linux_wifi.h:371-438 | the whole reading, over one socket with shared limits, computes the specified outcome |
| WifiReports.WrittenReports | native/wtop_linux_wifi.h:289-324 | a message written with any sound identity comes back as that association if the status written is associated, and is passed over with another one, without one, or without an access point |
| WifiReports.SameReported | native/wtop_linux_wifi.h:289-355 | two dumps are about the same associations exactly if their messages report the same identities, in whatever order, at most sixteen and of distinct access points |
| WifiReports.InterfaceMeans | native/wtop_linux_wifi.h:269-287 | the interface is the same exactly if number, name, device, radio, type and address are carried on both sides with equal values of their sizes, under the name asked for |
| WifiReports.RepliesMean | native/wtop_linux_wifi.h:252-267 | which replies are accepted for an interface, a client and a station, on the attributes they carry |
| WifiReports.FamilyMeans | native/wtop_linux_wifi.h:241-250 | a family reply gives a number exactly if it is at least 16 and named nl80211 |
| WifiReports.StationMeans | native/wtop_linux_wifi.h:410-427 | without links the station is not asked for; links to different peers are noted as unsupported; otherwise a reply about the peer is kept, the refusals 1, 13 and 95 are noted, and everything else ends the reading |
| LevelZeroEnergy.FreshMeans | native/wtop_levelzero.c:193-215 | a value is fresh exactly when the counter advanced for 100 ms to 5 s at a plausible rate; watts times interval is then the energy between the cursors |
| LevelZeroEnergy.Squeeze | native/wtop_levelzero.c:118-123 | keeps the first occurrence of every non-null handle, in place |
| LevelZeroEnergy.Enumerate | native/wtop_levelzero.c:108-124 | at most 32 distinct non-null handles; the partial mark is set exactly when they are not all the driver has, the truncated mark exactly when it named more than fit, even in a call that failed |
| LevelZeroEnergy.Energy | native/wtop_levelzero.c:193-215 | one reading against the last cursor of its handle |
| LevelZeroEnergy.Powers | native/wtop_levelzero.c:262-290 | a row for every handle that answered, the cursors for next time, a headline iff one row alone has the best rank; the driver is lost iff one of the calls made says so |
| LevelZeroEnergy.Reader.FindDevice | native/wtop_levelzero.c:370-371 | the remembered cursors of a device and identity |
| LevelZeroEnergy.Reader.ReadDevice | native/wtop_levelzero.c:372-389 | one device read to the end; the driver is lost afterwards iff it was before or one of the device's calls says so |
| LevelZeroEnergy.CollectionIsStep | native/wtop_levelzero.c:344-395 | a collection moves every handle's cursor by exactly one step of the single-handle machine |
| LevelZeroEnergy.Reader.Query | native/wtop_levelzero.c:412-419 | outside the worker, a failed query clears the cursors if and only if the driver is lost by its answers; every other failure leaves them |
| LevelZeroEnergy.LostClears | native/wtop_levelzero.c:416 | a remembered reading is gone after a query that finds the driver lost |
| LevelZeroEnergy.CommittedAndLost | native/wtop_levelzero.c:359-365 | a collection can commit although identifying a repeated last device has lost the driver |
| LevelZeroEnergy.CursorMoves | native/wtop_levelzero.c:193-215 | every reading but a short poll becomes the cursor, published or not |
| LevelZeroEnergy.GapMeans | native/wtop_levelzero.c:201-213 | why a reading is not published, on the two readings |
| LevelZeroEnergy.AnswerPublished | native/wtop_levelzero.c:262-290 | a committed report says about a handle that answered the energy and time of its counter as they stand between the cursor remembered before and the one remembered now |
| LevelZeroEnergy.RememberedIsOwn | native/wtop_levelzero.c:196-197 | what is remembered for a power handle was left for that handle, by that device under that identity |
| LevelZeroEnergy.AcceptedDistinct | native/wtop_levelzero.c:356-369 | the devices a report covers have distinct identities |
| LevelZeroEnergy.HeadlineIsChosen | native/wtop_levelzero.c:270-290 | the headline is the reading of the one domain whose scope is preferred to all others', if there is one |
| CpuTopology.RelatedGrouped | native/wtop_windows_cpu.c:295-314 | after the first loop known cores contain their rows and agree on their members, in both modes |
| CpuTopology.SettledCoherent | native/wtop_windows_cpu.c:315-328 | after the second no known core spans two known packages |
| CpuTopology.Capture.MembersOf | native/wtop_windows_cpu.c:278-286 | the rows a record covers, or none unless every masked position is a row |
| CpuTopology.Capture.Cover | native/wtop_windows_cpu.c:296-302 | the number of usable records of one kind covering a row, and the last |
| CpuTopology.Capture.RelateRow | native/wtop_windows_cpu.c:295-314 | one row becomes the specified combination of both descriptions |
| CpuTopology.Capture.SeedFromMasks | native/wtop_windows_cpu.c:267-277 | rows for exactly the masked positions, in order, if they account for every active processor |
| CpuTopology.Capture.Settle | native/wtop_windows_cpu.c:315-328 | withdraws what rows of contradictory cores claimed |
| CpuTopology.UnstableIncoherent | native/wtop_windows_cpu.c:291-293 | reconciling an unstable observation with a CPU Set row leaves a row that is not coherent |
| CpuNumbers.MembersMean | native/wtop_windows_cpu.c:278-286 | a record covers a row exactly if its mask does and every position it names is a row in a group its masks can describe |
| CpuNumbers.SameNumber | native/wtop_windows_cpu.c:287-301 | two rows carry the same number exactly if their records start with the same row, and the same record covers both if only one covers that row |
| CpuNumbers.SharedNumber | native/wtop_windows_cpu.c:287-301 | two package records that share their first processor: their other processors come out under one package number |
| StatusSpans.GapExists | native/wtop_linux_process_status.h:26-29 | with at most 96 keys the probe sequence of any key meets a gap |
| StatusSpans.MetBeforeGap | native/wtop_linux_process_status.h:26-29 | a key in the table is met before the first gap of its probe sequence |
| StatusSpans.KeyRun | native/wtop_linux_process_status.h:21-22 | the key run of a line and its hash |
| StatusSpans.Locate | native/wtop_linux_process_status.h:25-29 | probing terminates, with the gap for a new key or a repetition |
| StatusSpans.Remember | native/wtop_linux_process_status.h:32-34 | a metadata line is remembered under its name |
| StatusSpans.FieldUnique | native/wtop_linux_process_status.h:32-34 | with distinct keys a remembered field is the one line of its key |
| StatusSpans.LinesMean | native/wtop_linux_process_status.h:19-21 | the lines of any text: each ends before the next newline or at the end of the text |
| StatusSpans.KeyMeans | native/wtop_linux_process_status.h:22-24 | a line carries exactly the key it starts with: letters, digits and underscores, at least one, and a colon |
| StatusSpans.ForeignMeans | native/wtop_linux_process_status.h:23 | a text is refused for a byte outside ASCII right behind the key bytes a line starts with |
| StatusNumbers.Uint | native/wtop_linux_process_status.h:52-61 | reads exactly the digit runs up to the bound, whichever bound the overflow test really keeps |
| StatusNumbers.TotalCounts | native/wtop_linux_process_status.h:70-71 | the summed sizes of ascending ranges are the number of identifiers they name |
| StatusNumbers.ReadItem | native/wtop_linux_process_status.h:66-69 | a number or a range |
| StatusNumbers.BoundKept | native/wtop_linux_process_status.h:57 | that bound is the one asked for if and only if the latter is at least nine (or below minus nine, where nothing is read) |
| ProcStat.ReadFields | native/wtop_native.c:1766-1778 | the token loop reads the specified fields |
| ProcStat.PushStatFields | native/wtop_native.c:1727-1785 | the fast path computes the specified reading or declines |
| ProcStat.RecordDelimiters | native/wtop_native.c:1747-1752 | the delimiters are found where they were printed, whatever the name contains |
| ProcStat.FindField22 | native/wtop_native.c:2184-2204 | finds the start of field 22 |
| ProcStat.ReadStartTime | native/wtop_native.c:2136-2208 | computes the specified reading of the start time |
| ProcStat.ReadersAgree | native/wtop_native.c:1727-1814 | both readers take the same start time from a record |
| NaturalOrder.TokensSpell | native/wtop_macos_sensors.c:208-225 | labels are equal exactly when their tokens are |
| NaturalOrder.CompareOrder | native/wtop_macos_sensors.c:207-228 | swapping the labels negates the answer; it is zero only for equal labels |
| NaturalOrder.CompareTransitive | native/wtop_macos_sensors.c:207-228 | the label order is transitive |
| NaturalOrder.ReadingCompare | native/wtop_macos_sensors.c:229-237 | device, label, registry number, ordinal, in that order |
| NaturalOrder.SortedOnce | native/wtop_macos_sensors.c:229-237 | a list of readings has one sorted arrangement |
| NaturalOrder.SmallerFirst | native/wtop_macos_sensors.c:209-219 | a label with the smaller printed number comes first, whatever follows |
| NaturalOrder.BytesAsBytes | native/wtop_macos_sensors.c:220-224 | behind any common prefix other bytes compare as bytes |
| NaturalOrder.ShorterFirst | native/wtop_macos_sensors.c:227 | a label comes before its continuations |
| NaturalOrder.ReadingMeans | native/wtop_macos_sensors.c:229-237 | the device decides by its first differing byte, then the label, the registry number and the ordinal |

## Left out

- Everything that only calls the system or draws: terminal handling, the Lua stubs, library loading, ioctl, SetupAPI, IOKit and socket transport, process spawning and sealing. Their results are inputs here.
- Requests and replies around the GPU operation stream: the 64-byte header, its checksum and the sequence numbers of the worker's main loop.
- native/wtop_windows_nvml_helper.c encodes the same operation stream a second time; one copy is modelled.
- native/wtop_hardware_worker.c, native/wtop_macos_report.c and native/wtop_macos_gpu_clock.h: bounded counters and weighted means, whose properties can be read off one body each.
- Floating-point rounding: power values are exact reals, doubles on the wire are 64-bit patterns that are finite iff the exponent field is not all ones.
- Lua running out of memory in the middle of a collection: a collection either commits or does not.
- Lua's string and table representation: a replayed table is a tree of key and value stores in order.
- The array and field hints of a table are checked for range and otherwise ignored, as the parent ignores them.
- GpuOutput.Output.Reserve: the buffer is copied on growth; that realloc may move it in place is not modelled.
- ImageCache.InvStep: each region between locking and unlocking is one step; a descriptor that other code in the process replaces in the middle of a locked region is not modelled, one replaced between regions is.
- CpuidJobs.InvStep: cancellation and deadlines only make a worker finish early, which it may do at any time.
- The hexadecimal command line that carries the CPUID targets to the helper.
- RemovableProbes.Mounts.PushMountRecords: worker steps interleave with the collector's steps in the transition system, not inside one method call; the collector touches a worker's buffer only while no worker runs.
- ProcessCaches.Cache.Store: file times and names are opaque values; the cache of user names by security identifier is left out.
- CpuTopology.Capture.Relate: the parsers that produce rows and records and the cache and time tables after it are left out.
- The second and third passes over process status text, which turn the remembered lines into the published table.
- ProcStat.PushStatFields: the composed identity text always fits its buffer and is left out.
- NvmlDevice.DevicePower: the double patterns of scaled readings are inputs that are finite.
- NvmlDevice.DeviceClocks: the double patterns of scaled clocks are inputs that are finite.
- CpuidCapture.Reader.Snapshot: states which leaves must be there, not in which order they were asked for.
- DiskGenerations.Disks.Collect: the 64-bit generation counter does not wrap.
- WifiExchange.Exchange: sending, waiting and interrupted calls are the list of datagrams that arrive in time; a system call that fails counts as a failed exchange whatever its error number.
- WifiScan.Association.Read: is the two passes alone; `WifiRead.ReadWifi` has what lies around and between them.
- LevelZeroEnergy.Reader.Collect: temperatures, frequencies and power limits only matter here by losing the device; the published text of a report is left out.

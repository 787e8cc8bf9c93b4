# XCSoar core verification

A Dafny model of the parts of XCSoar that carry guarantees worth proving: byte-stream buffers and
GATT queues on Android, POSIX time zones, GDL90 framing, the migration of the data layout, the
low-churn PO patcher, MS5611 compensation, the system tool catalogue and the UI rate limiter.

`dafny verify dfyconfig.toml` checks everything; the proofs need no options.

Code that changes things step by step is modelled as a class or as methods with loops.  Each method
is proved equal to a function over values, and the properties are proved about those functions:
for one call, for every reachable state, or for every run of all actors.

| module | models |
|---|---|
| Common | types that several modules share |
| Calendar | the proleptic Gregorian calendar of Python's `date` |
| TimeZoneRules, TimeZoneOffsets, TimeZoneParser | POSIX TZ strings, section 8.3 of IEEE Std 1003.1-2017 with the hours of section 3.3.1 of RFC 8536 |
| Gf2, Gdl90Crc, Gdl90Framing | polynomials over GF(2), the checksum and the framing of section 2.2 of the GDL 90 Data Interface Specification (560-1058-00) |
| OutputThread | the buffer between writers and the thread that writes to a Java stream |
| BleSerial | the chunked write buffer of Bluetooth LE serial ports and its GATT callbacks |
| GattQueue | the descriptor-write and read queues of Bluetooth sensors |
| Ioio | agents, election and listeners of IOIO connections |
| LocalPath, ProfilePaths, Migration, PlaneMigration | path contraction, profile references, the layout migration and its plane files |
| PoPatcher | entry blocks of a PO file and their replacement in place |
| Ms5611 | calibration and compensation in Java's integer widths |
| Permutations, ToolDescriptor, SystemTools | descriptors of system tools and the merged catalogue |
| RateLimiter | the timed state machine that spaces calls of `Run()` |

## Where the code does not keep a promise

Each of these has a concrete case among the lemmas, and the exact condition for all inputs.

- A file name with a backslash, legal on POSIX, breaks migrated references to that file: expanding
  a contracted path turns the backslash into a slash.  Case: `ProfilePaths.BackslashBreaksReference`.
  Condition: `LocalPath.ExpandInvertsContract` for one path, `ProfilePaths.RewrittenRefFollowsFile`
  for any list of moves, and `Migration.ReferencesStillResolve` and
  `PlaneMigration.CompleteStartRestoresReferences` for whole migrations, reference by reference.
- The layout migration does not recover from being interrupted between a rename and the save of a
  profile, unlike the migration of plane files.  Case: `Migration.InterruptedStartLosesReference`.
  Condition: `Migration.ReferenceResolvesIff`; a lost reference stays lost through any number of
  further starts (`Migration.InterruptionLeavesDanglingReference`).
- `drain()` of the Bluetooth LE write buffer checks the error flag only on entry, so a drain that
  was waiting reports success when the buffer was discarded in the meantime.  Cases:
  `BleSerial.DrainCanHideAnError` and `BleSerial.DrainCanHideARefusedChunk`.  Condition:
  `BleSerial.DrainTellsTheTruthIff`, by the guard of the branches that discard.  The error flag is
  no substitute: another caller may have consumed it, and a failure with an empty buffer raises it.
- The second-order terms of the MS5611 overflow `int` below -154.72 and -155.34 degrees.  Case:
  `Ms5611.ZeroReadingOverflows`.  Condition: `Ms5611.SecondOrderIsExactIff`.
- The rate limiter keeps the period less what the event loop's cached clock is behind.  Case:
  `RateLimiter.CachedClockShortensPeriod`.  Condition: `RateLimiter.PeriodIsRespectedIff`.
- After waiting, `write()` of the Java output thread takes a head of zero for a buffer that is still
  full, but another `write()` may have moved the bytes to the front: then the waiting `write()` fails
  with the port open and room in the buffer.  Case: `OutputThread.WaitingWriteCanFailWithRoom`.
  Condition: `OutputThread.ResumedWriteFailsIff` for a step, `OutputThread.WaitingWriteFailsIff` for
  a run since the buffer was full.
- A disconnect while a GATT callback is due leaves the request recorded as current, and nothing
  resets it: a sensor that connects again only queues what it asks for.  Case:
  `GattQueue.DisconnectDuringWrite`.  Condition: `GattQueue.DisconnectBlocksIff` by what is recorded,
  `GattQueue.DisconnectBlocksIfPending` by what the stack owes.
- A notification requested while a GATT read is pending starts a second operation; only the order
  of calls in one service discovery prevents it.  Case: `GattQueue.SecondDiscoveryOverlaps`.
  Condition: `GattQueue.StepOverlapsIff` for a step, `GattQueue.RunsOverlapIff` for a run.
- When the elected IOIO agent disconnects, a connection that another agent made meanwhile stays
  unused.  Case: `Ioio.ConnectionIsLeftUnused`.  Condition: `Ioio.UnusedIff`.

The other way round, the check `blocks_overlap` of the PO patcher can never be true
(`PoPatcher.BuiltBlocksDoNotOverlap`).

## Model

| member | source | states |
|---|---|---|
| Calendar.OrdinalCountsDays | tools/GenerateTimeZones.py:97-120 | day numbers count days without gaps: the next day has the next number, across months, leap days and years |
| Calendar.OrdinalIsDayNumber | tools/GenerateTimeZones.py:115-120 | the date n days after January 1 of year 1 has number n + 1, as in Python |
| Calendar.FromOrdinalInverts | tools/GenerateTimeZones.py:115-120 | adding days to a date by its number is inverse to numbering: every date is recovered and every number is that of a valid date |
| Calendar.CycleOf400Years | tools/GenerateTimeZones.py:97-120 | dates 400 years apart are 146097 days apart, and so fall on the same weekday |
| Calendar.WeekdayOfNextDay | tools/GenerateTimeZones.py:97-110 | weekdays follow each other in turn |
| Calendar.MonthLengths | tools/GenerateTimeZones.py:97-120 | the lengths of the twelve months, February by the Gregorian leap year |
| TimeZoneRules.GetDate | tools/GenerateTimeZones.py:97-120 | the loop that steps back from a fifth week computes the date of the rule, for all three formats |
| TimeZoneRules.EpochIsThursday | tools/GenerateTimeZones.py:49-49 | 1970-01-01, from which points in time are counted, is a Thursday, by Python's weekday and by that of POSIX |
| TimeZoneRules.MonthRuleMeaning | tools/GenerateTimeZones.py:97-110 | an M rule falls in its month on its weekday: the n-th one for weeks 1 to 4, the last one for week 5 |
| TimeZoneRules.JulianRuleSkipsLeapDay | tools/GenerateTimeZones.py:112-118 | a J rule stays in its year and never falls on February 29 |
| TimeZoneRules.JulianRuleIsPerpetual | tools/GenerateTimeZones.py:112-118 | a J rule names the same month and day in every year, leap or not |
| TimeZoneRules.JulianRuleMeaning | tools/GenerateTimeZones.py:112-118 | a J rule counts the days of a year without leap day from one |
| TimeZoneRules.DayRuleMeaning | tools/GenerateTimeZones.py:119-120 | an n rule counts the days of the year from zero, leap days included |
| TimeZoneRules.CycleOfRules | tools/GenerateTimeZones.py:97-120 | every rule repeats after 400 years |
| TimeZoneOffsets.OffsetRepeats | tools/GenerateTimeZones.py:173-208 | the offset of any zone at any instant is that of 146097 days later |
| TimeZoneOffsets.ConstantIffSeamless | tools/GenerateTimeZones.py:173-208 | the offset is constant on every interval that contains no transition, over any number of New Years, if and only if adjacent years agree at each New Year |
| TimeZoneOffsets.SeamlessIff400 | tools/GenerateTimeZones.py:173-208 | that condition holds at all times if and only if it does at any 400 consecutive New Years |
| TimeZoneOffsets.ConstantIffTestPasses | tools/GenerateTimeZones.py:173-208 | for offsets and times within the parser's ranges: the offset is constant between transitions at all times if and only if a test of 400 New Years passes that looks at the transitions of two years each |
| TimeZoneOffsets.RegularIsSeamless | tools/GenerateTimeZones.py:173-208 | that condition holds for every zone whose two transitions fall in their own standard-time year in the same order every year |
| TimeZoneOffsets.RegularOffsets | tools/GenerateTimeZones.py:173-208 | which offset such a zone has: daylight from a start up to the next end and standard from an end up to the next start, for zones whose start comes first in the year and for those whose end does |
| TimeZoneOffsets.FixedOffset | tools/GenerateTimeZones.py:173-208 | a zone without daylight saving time has its standard offset at all times, and no transitions |
| TimeZoneOffsets.TransitionsOnTheWall | tools/GenerateTimeZones.py:195-208 | clocks on standard time show the date and time of the start rule at the first transition of a year, clocks on daylight time those of the end rule at the second |
| TimeZoneOffsets.RegularZonesChangeAtTransitions | tools/GenerateTimeZones.py:195-202 | conversely the offset of such a zone changes at every transition that is listed |
| TimeZoneOffsets.OrdinaryIsRegular | tools/GenerateTimeZones.py:173-208 | zones with M rules between February and November, two months apart, are of that kind whatever their times and offsets in range |
| TimeZoneParser.ScanAbbreviation | tools/GenerateTimeZones.py:210-225 | the scanning loop accepts quoted names of three characters or more and the longest run of three letters or more |
| TimeZoneParser.ScanUnsigned | tools/GenerateTimeZones.py:227-236 | the scanning loop takes the longest run of digits up to the limit and fails on none |
| TimeZoneParser.ValueOfDecimal | tools/GenerateTimeZones.py:227-236 | digits are read as decimal numbers: the value of the decimal notation of a number is that number |
| TimeZoneParser.OffsetMeaning | tools/GenerateTimeZones.py:238-260 | an offset denotes 3600 seconds an hour and 60 a minute, negated by a minus sign |
| TimeZoneParser.HourLimits | tools/GenerateTimeZones.py:238-260 | of all numbers of up to three digits offsets may have up to 24 hours and times up to 167; others are malformed |
| TimeZoneParser.NumberedRules | tools/GenerateTimeZones.py:262-300 | of all numbers of up to three digits J rules may have 1 to 365 and n rules 0 to 365; others are malformed |
| TimeZoneParser.CentralEurope | tools/GenerateTimeZones.py:137-171 | "CET-1CEST,M3.5.0,M10.5.0/3" is one hour ahead of UTC, two in summer, from the last Sunday of March at two to that of October at three |
| TimeZoneParser.NewYork | tools/GenerateTimeZones.py:137-171 | "EST5EDT,M3.2.0,M11.1.0" is five hours behind UTC, four in summer, with transitions at the default time of two |
| TimeZoneParser.Brasilia | tools/GenerateTimeZones.py:137-171 | "<-03>3" is three hours behind UTC all year |
| TimeZoneParser.RenderedZoneIsParsed | tools/GenerateTimeZones.py:137-171 | parsing what the POSIX grammar writes for a zone gives the zone with its offset sign flipped and leaves nothing over |
| TimeZoneParser.ParsedZoneWasRendered | tools/GenerateTimeZones.py:210-300 | every string that is accepted is the rendering of some zone in the grammar |
| TimeZoneParser.ParserAcceptsTheGrammar | tools/GenerateTimeZones.py:137-171 | the parser gives a zone if and only if the grammar writes the string for that zone |
| TimeZoneParser.ParsedZoneIsValid | tools/GenerateTimeZones.py:238-300 | a parsed zone has rules within the ranges that get_date relies on |
| TimeZoneParser.ParsedZoneIsInRange | tools/GenerateTimeZones.py:238-300 | a parsed zone has offsets and times within the ranges of that test |
| TimeZoneParser.ParsedZoneIsConstantBetweenTransitions | tools/GenerateTimeZones.py:137-208 | a parsed zone with M rules between February and November, two months apart, is regular, and its offset is constant between transitions |
| Gdl90Crc.CrcIsRemainder | tools/gdl90_send.py:31-56 | the bit-by-bit checksum is a remainder: the message polynomial is a multiple of x^16+x^12+x^5+1 plus the checksum |
| Gdl90Crc.CrcIsTheOnlyRemainder | tools/gdl90_send.py:31-56 | no other 16-bit value is |
| Gdl90Crc.TableReplacesEightSteps | tools/gdl90_send.py:36-42 | one look-up in the table equals eight bit steps, from any state and for any byte |
| Gdl90Crc.BuildTable | tools/gdl90_send.py:31-42 | the nested loops fill the table with the entries that this needs |
| Gdl90Crc.Crc16 | tools/gdl90_send.py:48-56 | the loop over bytes with the table computes the remainder of the whole message |
| Gdl90Crc.CrcIsLinear | tools/gdl90_send.py:48-56 | the checksum is linear over GF(2) on messages of equal length |
| Gdl90Crc.CrcOfXor | tools/gdl90_send.py:48-56 | the same for bytes: the checksum of an XOR is the XOR of the checksums |
| Gdl90Crc.BurstIsDetected | tools/gdl90_send.py:48-56 | any change confined to 16 consecutive bits changes the checksum, at any message length |
| Gdl90Crc.OddErrorIsDetected | tools/gdl90_send.py:48-56 | any change of an odd number of bits changes the checksum |
| Gdl90Crc.TwoByteCorruptionIsDetected | tools/gdl90_send.py:48-56 | any change of one byte or two adjacent bytes changes the checksum |
| Gdl90Framing.EscapeBody | tools/gdl90_send.py:59-67 | the loop computes the escaped body |
| Gdl90Framing.EscapeMeaning | tools/gdl90_send.py:59-67 | 7E is sent as 7D 5E and 7D as 7D 5D, other bytes as they are |
| Gdl90Framing.LowByteFirst | tools/gdl90_send.py:70-74 | the first of the two checksum bytes is the low one, and both together are the checksum |
| Gdl90Framing.EscapeHidesFlags | tools/gdl90_send.py:59-67 | no flag byte is left in an escaped body, and it is empty only if the body is |
| Gdl90Framing.UnescapeInverts | tools/gdl90_send.py:59-67 | undoing the escapes gives every body back |
| Gdl90Framing.BuildFrame | tools/gdl90_send.py:70-74 | a frame is flag, escaped body with its checksum in little endian, flag |
| Gdl90Framing.FrameMeaning | tools/gdl90_send.py:70-74 | between two bytes 7E there are the escaped seven bits of the identifier, the payload, and the checksum of both |
| Gdl90Framing.ReceiveInvertsStream | tools/gdl90_send.py:588-589 | splitting the concatenated frames at flags, dropping empty pieces and undoing escapes returns exactly the bodies in order, for every sequence of messages |
| Gdl90Framing.StreamsAreUnambiguous | tools/gdl90_send.py:588-589 | equal streams carry equal messages |
| Gdl90Framing.SentBodiesPass | tools/gdl90_send.py:70-74 | what is sent passes the check of the checksum |
| Gdl90Framing.CorruptedBodyFails | tools/gdl90_send.py:70-74 | a body changed in one byte or two adjacent bytes does not |
| OutputThread.StepKeepsInv | android/src/OutputThread.java:36-163 | every step of writers, drain, close and the thread keeps the order of bytes, also a shift during a write in flight |
| OutputThread.NothingLostOrReordered | android/src/OutputThread.java:80-163 | in every run the bytes written to the stream and those not yet written are all accepted bytes in order, and at most a buffer more than written is accepted |
| OutputThread.WriteIsAccounted | android/src/OutputThread.java:124-163 | the value write() returns is the number of bytes accepted, a prefix of the data; a failed write accepts none |
| OutputThread.WriteOutcome | android/src/OutputThread.java:124-163 | in every reachable state a fresh write() fails if and only if the port is closed, or the buffer is full and the timeout not positive, waits if and only if it is full and there is a timeout, and otherwise accepts as much as fits behind the tail, or, with the tail at the end, as much as the shift makes room for |
| OutputThread.ResumedWriteOutcome | android/src/OutputThread.java:132-163 | a write() that waited fails if and only if it was interrupted, the port is closed or the head is still zero, and otherwise accepts as much as there is room |
| OutputThread.DrainMeansWritten | android/src/OutputThread.java:51-68 | drain() returns true only when the stream is open and every accepted byte has been written |
| OutputThread.DrainOutcome | android/src/OutputThread.java:51-68 | drain() succeeds at once if and only if the port is open and the buffer empty, fails if and only if it is closed, and otherwise waits; with a thread that is not in the middle of a write the buffer is empty if and only if the stream has every accepted byte |
| OutputThread.ResumedDrainOutcome | android/src/OutputThread.java:55-67 | a drain() that waited succeeds if and only if it was not interrupted, the port is open and the buffer empty, and waits on if and only if there are bytes and time left |
| OutputThread.ClosedPort | android/src/OutputThread.java:36-49 | close() wakes the thread and all callers and keeps the bytes; afterwards write() and drain() fail, and the thread ends |
| OutputThread.TimeoutOutcome | android/src/OutputThread.java:70-72 | setTimeout() changes the timeout and nothing else |
| OutputThread.ThreadOutcome | android/src/OutputThread.java:80-122 | the thread ends if the port is closed, sleeps if the buffer is empty and otherwise takes all of it; when these bytes are written the head moves past them and everybody is woken; an exception closes the port |
| OutputThread.NobodySleepsInVain | android/src/OutputThread.java:80-163 | a sleeping thread has nothing to write, and a caller that was not notified still has its reason to wait |
| OutputThread.LiveThreadWritesEverything | android/src/OutputThread.java:80-122 | from every reachable state two rounds of a thread that does not fail write all that was accepted |
| OutputThread.ResumedWriteFailsIff | android/src/OutputThread.java:132-147 | a write() that waited fails with the port open, uninterrupted and room in the buffer if and only if the head is zero and the tail is not at the end |
| OutputThread.HeadIsZeroIff | android/src/OutputThread.java:74-147 | after any run the head is zero if and only if a write() has shifted since the thread last advanced, or it was zero and the thread has not advanced |
| OutputThread.WaitingWriteFailsIff | android/src/OutputThread.java:74-163 | in every run from a full buffer, a write() that waited fails for no good reason if and only if there is room at the end and another write() has shifted since the thread last advanced |
| OutputThread.WaitingWriteCanFailWithRoom | android/src/OutputThread.java:132-147 | seven steps after which a waiting write() fails with 255 bytes free |
| OutputThread.OutputBuffer.ShiftBuffer | android/src/OutputThread.java:74-78 | moves the unwritten bytes to the front of the array; the new state is that of the step |
| OutputThread.OutputBuffer.Store | android/src/OutputThread.java:146-162 | shifts, copies as much as fits and notifies if the buffer was empty; the new state is that of the step |
| OutputThread.OutputBuffer.Write | android/src/OutputThread.java:124-163 | up to waiting: fails when closed or full without a timeout, otherwise stores or waits; the new state is that of the step |
| OutputThread.OutputBuffer.FinishWrite | android/src/OutputThread.java:132-163 | after waiting: fails if closed, interrupted or with a head of zero, which the source takes for a buffer that is still full, otherwise stores; the new state is that of the step |
| OutputThread.OutputBuffer.Drain | android/src/OutputThread.java:51-68 | up to waiting; the new state is that of the step |
| OutputThread.OutputBuffer.ResumeDraining | android/src/OutputThread.java:55-67 | after waiting: gives up on interruption or timeout, waits again, or reports whether the port is open; the new state is that of the step |
| OutputThread.OutputBuffer.CloseStream | android/src/OutputThread.java:36-49 | closes once and wakes everybody; the new state is that of the step |
| OutputThread.OutputBuffer.TakeChunk | android/src/OutputThread.java:84-103 | sleeps, ends, or takes all unwritten bytes; the new state is that of the step |
| OutputThread.OutputBuffer.AdvanceHead | android/src/OutputThread.java:107-110 | moves the head by what was written and wakes everybody; the new state is that of the step |
| BleSerial.StepKeepsInv | android/src/BleSerialWriteBuffer.java:50-207 | every call and every callback keeps the invariant: bytes in order, the busy flag right, no byte waiting without an operation, nobody asleep without reason |
| BleSerial.ChunksCarryTheAcceptedBytes | android/src/BleSerialWriteBuffer.java:56-91 | in every run, since the last error or reset: chunks and buffer together are the accepted bytes in order, no two operations ever overlap, and when none is pending nothing is left in the buffer |
| BleSerial.ChunksFitTheMtu | android/src/BleSerialWriteBuffer.java:56-91 | every chunk has at least one byte and at most the MTU of its moment |
| BleSerial.StoreIsAccounted | android/src/BleSerialWriteBuffer.java:161-207 | write() reports how many bytes it accepted, and at least one if the stack did not refuse |
| BleSerial.WriteOutcome | android/src/BleSerialWriteBuffer.java:135-207 | in every reachable state a fresh write() consumes the error flag, waits if and only if the buffer is full from its first byte, accepts nothing if and only if there is no data, the flag was set, or an idle stack refuses, and otherwise accepts as much as there is room |
| BleSerial.ResumedWriteOutcome | android/src/BleSerialWriteBuffer.java:146-206 | a write() that waited waits on if and only if the buffer is still full and there is time, and otherwise does the same |
| BleSerial.StoreOutcome | android/src/BleSerialWriteBuffer.java:171-206 | what a store starts: nothing if an operation is pending, the read of the device name if it is offered, otherwise the write of as many bytes as data, room and MTU allow; a refusal leaves the buffer empty |
| BleSerial.BeginOutcome | android/src/BleSerialWriteBuffer.java:56-91 | the next chunk is the first bytes of the buffer, as many as the MTU allows; a refusal raises the error and gives up the buffer |
| BleSerial.StepConserves | android/src/BleSerialWriteBuffer.java:50-102 | every step conserves: what left the buffer followed by what is in it grows by exactly the bytes that a write() accepts, and bytes leave by being discarded exactly if the step meets the guard (bytes buffered, and a failed write, a refused next chunk or a reset), and then all of them |
| BleSerial.EveryByteIsAccountedFor | android/src/BleSerialWriteBuffer.java:50-207 | the same for every run, across errors and resets: handed over, discarded and buffered bytes together are all accepted bytes in order |
| BleSerial.HandedOverIff | android/src/BleSerialWriteBuffer.java:56-102 | of the first m bytes to leave the buffer, those that leave in a run are all handed over if and only if no step discards before the m-th has left |
| BleSerial.CallbackMakesProgress | android/src/BleSerialPort.java:210-225 | each successful callback hands over more of the buffer or finds it empty, and the bytes handed over and left are in sum the same |
| BleSerial.CallbackOutcome | android/src/BleSerialPort.java:210-225 | what each callback does next: hand over the next chunk, become idle with an empty buffer, or raise the error, give up the buffer and wake everybody |
| BleSerial.MtuOutcome | android/src/BleSerialPort.java:243-254 | the data MTU is 20 at first and becomes the MTU of the protocol less three bytes, if that succeeded and leaves any |
| BleSerial.ResetOutcome | android/src/BleSerialWriteBuffer.java:50-54 | a reset clears the error flag and the buffer, keeps the MTU and wakes everybody |
| BleSerial.DrainMeansHandedOver | android/src/BleSerialWriteBuffer.java:104-128 | drain() returns true only with an empty buffer: the bytes accepted since the last error or reset are the chunks handed over, all bytes ever accepted have left in order, and all were handed over if and only if no step of the run discarded any |
| BleSerial.DrainOutcome | android/src/BleSerialWriteBuffer.java:104-128 | drain() fails if and only if the error flag is set, which it clears, succeeds if and only if it is not and the buffer is empty, and otherwise waits |
| BleSerial.ResumedDrainOutcome | android/src/BleSerialWriteBuffer.java:115-127 | a drain() that waited succeeds if and only if it was not interrupted and the buffer is empty, and waits on if and only if there are bytes and time left |
| BleSerial.DrainTellsTheTruthIff | android/src/BleSerialWriteBuffer.java:104-128 | whenever drain() returns true, at any time after any reachable state: the bytes buffered in that state were handed over if and only if no step since met the discarding guard while one of them was left, and all bytes accepted up to the return were if and only if no step met it at all |
| BleSerial.ErrorFlagTellsTheTruth | android/src/BleSerialWriteBuffer.java:98-102 | in runs without calls that consume the error flag and without resets, the flag is clear if and only if no request failed, and then no accepted byte was discarded |
| BleSerial.DrainCanHideAnError | android/src/BleSerialWriteBuffer.java:104-128 | of 40 accepted bytes 20 are discarded by a failed write while drain() waits, and it returns true |
| BleSerial.DrainCanHideARefusedChunk | android/src/BleSerialWriteBuffer.java:56-91 | a refused chunk takes all 10 accepted bytes with it while drain() waits, and it returns true |
| BleSerial.WriteBuffer.BeginChunk | android/src/BleSerialWriteBuffer.java:56-91 | takes the next chunk off the buffer and hands it over, or gives up the buffer with that chunk; the new state, with the bytes handed over or discarded, is that of the step |
| BleSerial.WriteBuffer.StoreData | android/src/BleSerialWriteBuffer.java:171-206 | shifts, buffers and starts an operation if none is pending; the new state is that of the step |
| BleSerial.WriteBuffer.Write | android/src/BleSerialWriteBuffer.java:135-207 | up to waiting; the new state is that of the step |
| BleSerial.WriteBuffer.FinishWrite | android/src/BleSerialWriteBuffer.java:146-206 | after waiting; the new state is that of the step |
| BleSerial.WriteBuffer.Drain | android/src/BleSerialWriteBuffer.java:104-128 | up to waiting; the new state is that of the step |
| BleSerial.WriteBuffer.ResumeDraining | android/src/BleSerialWriteBuffer.java:115-127 | after waiting; the new state is that of the step |
| BleSerial.WriteBuffer.RaiseError | android/src/BleSerialWriteBuffer.java:93-102 | sets the flag, discards the buffer and wakes everybody; the new state is that of the step |
| BleSerial.WriteBuffer.ResetBuffer | android/src/BleSerialWriteBuffer.java:50-54 | clears flag and buffer; the new state is that of the step |
| BleSerial.WriteBuffer.MtuChanged | android/src/BleSerialPort.java:243-254 | takes the data MTU from the ATT MTU if that leaves room for data; the new state is that of the step |
| BleSerial.WriteBuffer.CharacteristicRead | android/src/BleSerialPort.java:210-214 | starts the next chunk; the new state is that of the step |
| BleSerial.WriteBuffer.CharacteristicWrite | android/src/BleSerialPort.java:216-225 | starts the next chunk or raises the error; the new state is that of the step |
| GattQueue.StepKeeps | android/src/BluetoothSensor.java:275-321 | every call and callback keeps: the pending request is the recorded one, both queues wait only behind one, nothing wanted is forgotten |
| GattQueue.OneRequestAtATime | android/src/BluetoothSensor.java:252-321 | after one service discovery, whatever is refused and whenever callbacks come, at no moment is more than one request outstanding, and all descriptor writes precede the first read |
| GattQueue.EveryRequestIsMadeOnce | android/src/BluetoothSensor.java:285-321 | requests are made once each in the order of the calls, and all have been made with both queues empty whenever nothing is pending |
| GattQueue.CallbacksMakeProgress | android/src/BluetoothSensor.java:742-757 | while connected: as long as anything is left a callback is due, and each callback leaves less |
| GattQueue.OtherStepsKeepTidy | android/src/BluetoothSensor.java:275-321 | outside the guard every call and callback keeps at most one request pending and none accepted behind another |
| GattQueue.StepOverlapsIff | android/src/BluetoothSensor.java:285-296 | a step leaves two requests pending if and only if it asks for a notification while no write but a read is pending and the stack accepts |
| GattQueue.RunsOverlapIff | android/src/BluetoothSensor.java:252-321 | for every run with any number of service discoveries: never more than one request is pending if and only if no step of it meets that guard |
| GattQueue.SecondDiscoveryOverlaps | android/src/BluetoothSensor.java:285-296 | one run of two calls that meets the guard: a notification asked for during a read makes two requests pending |
| GattQueue.DisconnectBlocksIff | android/src/BluetoothSensor.java:673-720 | after a disconnect in any state, whatever connections and service discoveries follow: no descriptor write is ever asked for again if and only if one was recorded as current, and no read if and only if any request was |
| GattQueue.DisconnectBlocksIfPending | android/src/BluetoothSensor.java:673-720 | in every run without overlap: that is so if and only if the callback of a descriptor write, or any callback, was due |
| GattQueue.DisconnectDuringWrite | android/src/BluetoothSensor.java:285-296 | the smallest case: a disconnect during the first descriptor write |
| GattQueue.Sensor.EnableNextNotification | android/src/BluetoothSensor.java:275-283 | the loop takes from the queue until a write is accepted or the queue is empty; the new state is that of the step |
| GattQueue.Sensor.EnableNotification | android/src/BluetoothSensor.java:285-296 | starts or queues; the new state is that of the step |
| GattQueue.Sensor.RequestRead | android/src/BluetoothSensor.java:301-311 | starts or queues; the new state is that of the step |
| GattQueue.Sensor.PumpReadQueue | android/src/BluetoothSensor.java:313-321 | the recursion takes from the queue until a read is accepted or the queue is empty; the new state is that of the step |
| GattQueue.Sensor.OnDescriptorWrite | android/src/BluetoothSensor.java:748-758 | continues with writes, then with reads; the new state is that of the step |
| GattQueue.Sensor.OnCharacteristicRead | android/src/BluetoothSensor.java:742-745 | continues with reads; the new state is that of the step |
| Ioio.StepKeeps | android/src/IOIOHelper.java:148-242 | every event of agents and clients keeps: lists are disjoint and duplicate-free, listeners know what their list says, the elected connection is held by an agent |
| Ioio.ListenersSeeTheProtocol | android/src/IOIOHelper.java:148-242 | with any number of agents and listeners each listener sees connects and disconnects in turn, each disconnect with the connection of its connect, and nothing before it is added or after it is removed |
| Ioio.ListsSayWhatListenersKnow | android/src/IOIOHelper.java:148-242 | a registered listener is in exactly one list, in the open one exactly if it knows the elected connection |
| Ioio.AddOutcome | android/src/IOIOHelper.java:186-187 | in every reachable state a listener that is added waits in the closed list; nothing else changes and no other listener hears of it |
| Ioio.RemoveOutcome | android/src/IOIOHelper.java:201-208 | in every reachable state a listener that is removed is in no list afterwards; if it was open it is told that the elected connection is gone; all others stay where they were |
| Ioio.CycleOutcome | android/src/IOIOHelper.java:215-227 | in every reachable state an open listener that is cycled is told that the elected connection is gone and waits in the closed list; for others nothing happens |
| Ioio.SilentUntilAdded | android/src/IOIOHelper.java:148-242 | a listener that is in no list hears nothing in any run without an addListener() of it |
| Ioio.RemovedIsSilent | android/src/IOIOHelper.java:201-208 | so after removeListener() a listener is not called in any run until it is added again |
| Ioio.ConnectOutcome | android/src/IOIOMultiAgent.java:51-58 | the first connection is elected and every registered listener knows it; a further one changes nothing for listeners |
| Ioio.OthersAreIgnored | android/src/IOIOMultiAgent.java:60-74 | an agent whose connection is not the elected one moves no listener, neither by idling nor by disconnecting |
| Ioio.EveryoneIsTold | android/src/IOIOHelper.java:170-184 | once the elected agent has idled every registered listener knows its connection, and once it has disconnected none does |
| Ioio.UnusedIff | android/src/IOIOMultiAgent.java:51-66 | exactly when an agent holds a connection while none is elected: it begins when the elected agent disconnects while another holds one, and ends with a new connection or when the last such agent disconnects |
| Ioio.ConnectionIsLeftUnused | android/src/IOIOMultiAgent.java:51-66 | a run of three events after which a live connection is not elected |
| Ioio.IOIOHelper.OpenAllListeners | android/src/IOIOHelper.java:148-158 | the loop announces the connection to each closed listener and moves it; the new lists and the calls made are those of the specification |
| Ioio.IOIOHelper.CloseAllListeners | android/src/IOIOHelper.java:160-168 | the loop retracts the connection from each open listener and moves it; the new lists and the calls made are those of the specification |
| Ioio.IOIOHelper.AddListener | android/src/IOIOHelper.java:186-187 | appends to the closed list; the new lists and the calls made are those of the specification |
| Ioio.IOIOHelper.RemoveListener | android/src/IOIOHelper.java:201-208 | disconnects an open listener before removing it; the new lists and the calls made are those of the specification |
| Ioio.IOIOHelper.CycleListener | android/src/IOIOHelper.java:215-224 | disconnects an open listener and moves it to the closed list; the new lists and the calls made are those of the specification |
| Ioio.IOIOHelper.OnConnect | android/src/IOIOHelper.java:229-233 | opens all, then records the connection; the new lists and the calls made are those of the specification |
| Ioio.IOIOHelper.OnDisconnect | android/src/IOIOHelper.java:235-238 | forgets the connection, then closes all; the new lists and the calls made are those of the specification |
| Ioio.IOIOHelper.OnIdle | android/src/IOIOHelper.java:170-184 | opens the listeners that were added since; the new lists and the calls made are those of the specification |
| Ioio.IOIOMultiAgent.OnConnect | android/src/IOIOMultiAgent.java:51-58 | elects the first connection and ignores others |
| Ioio.IOIOMultiAgent.OnDisconnect | android/src/IOIOMultiAgent.java:60-66 | reacts to the elected connection only |
| Ioio.IOIOMultiAgent.OnIdle | android/src/IOIOMultiAgent.java:68-74 | passes on for the elected connection only |
| Ioio.IOIOAgent.SynchronousOpen | android/src/IOIOAgent.java:96-172 | connects exactly if a connection was made, and then holds it |
| Ioio.IOIOAgent.SynchronousClose | android/src/IOIOAgent.java:177-184 | disconnects exactly the connection that was held, if any |
| Ioio.IOIOAgent.IdleOnce | android/src/IOIOAgent.java:186-199 | idles with the connection held, unless interrupted before |
| Ioio.IOIOAgent.RunOnce | android/src/IOIOAgent.java:231-249 | the exact list of calls that a round of the connection thread makes, in order: a lost or disabled connection is disconnected, otherwise one that was made is connected, then the thread idles unless interrupted, or disconnects when shut down; and the connection held afterwards |
| LocalPath.RelativeToBuild | src/LocalPath.cpp:130-134 | a path built below the data directory has the relative part it was built from |
| LocalPath.ContractMeaning | src/LocalPath.cpp:130-183 | paths below the data directory become %LOCAL_PATH%\ and the part below it; all others stay as they are |
| LocalPath.ExpandMeaning | src/LocalPath.cpp:139-171 | %LOCAL_PATH%\, any slashes and a rest becomes the data directory, a slash and the rest with its backslashes turned into slashes, and stays as it is without a rest |
| LocalPath.OtherPathsStay | src/LocalPath.cpp:139-171 | paths without that code word stay as they are |
| LocalPath.ExpandInvertsContract | src/LocalPath.cpp:139-183 | contracting a path below the data directory and expanding it gives it back if and only if the relative part is not empty, does not begin with a slash and contains no backslash |
| LocalPath.ExpandStored | src/LocalPath.cpp:139-183 | contracting a path below the data directory and expanding it gives the path with its backslashes turned into slashes |
| ProfilePaths.UpdateMultiplePaths | src/DataLayoutMigration.cpp:94-127 | the loop over a list value rewrites each matching part and reports whether there was one |
| ProfilePaths.UpdateSinglePath | src/DataLayoutMigration.cpp:78-92 | a single value is rewritten if it matches |
| ProfilePaths.UpdateProfileReferences | src/DataLayoutMigration.cpp:129-184 | all ten keys are updated, and the profile is the same if no change is reported |
| ProfilePaths.UpdateProfileFromMoves | src/DataLayoutMigration.cpp:217-228 | all moves are applied in order, and the profile is the same if no change is reported |
| ProfilePaths.KeysByName | src/DataLayoutMigration.cpp:129-184 | the ten keys that hold references, and the four of them that hold lists, by name |
| ProfilePaths.SplitMeaning | src/DataLayoutMigration.cpp:94-127 | the parts of a list are the text between the separators, in order |
| ProfilePaths.JoinKeepsRefs | src/DataLayoutMigration.cpp:108-121 | joining parts and splitting them again loses empty parts only |
| ProfilePaths.UpdateKeysRefs | src/DataLayoutMigration.cpp:129-184 | one move rewrites the references of every key, keeping their number and order, and nothing else |
| ProfilePaths.RewrittenRefIsMoved | src/DataLayoutMigration.cpp:217-228 | applying moves one after the other rewrites a reference as applying all at once, for names with and without backslashes |
| ProfilePaths.RewrittenRefFollowsFile | src/DataLayoutMigration.cpp:217-228 | after all moves a reference names where its file now is if and only if the file did not move or its name has no backslash, whatever the other names are |
| ProfilePaths.SamePlaceIff | src/DataLayoutMigration.cpp:217-228 | the place a rewritten reference names and the place of the file are the same under that condition, and only then |
| ProfilePaths.UpdateFromMovesRefs | src/DataLayoutMigration.cpp:217-228 | after all moves each reference under the ten keys is the rewritten one, in place, and other keys are untouched |
| ProfilePaths.RewrittenRefArrivesIff | src/DataLayoutMigration.cpp:78-92 | a rewritten reference names the new place if and only if that place has no backslash and no leading slash |
| ProfilePaths.BackslashBreaksReference | src/DataLayoutMigration.cpp:78-92 | one file name for which it does not |
| ProfilePaths.NoReferenceNoChange | src/DataLayoutMigration.cpp:217-228 | a profile that refers to no moved file is not changed at all |
| ProfilePaths.UpdateLeavesNoSource | src/DataLayoutMigration.cpp:217-228 | after an update no reference names a place that was moved away from |
| Migration.BuildPlan | src/DataLayoutMigration.cpp:33-76 | the visitor plans the moves of the specification and counts what it skips: unclassified files, and classified ones whose destination exists; together they are all eligible files |
| Migration.PlannedIff | src/DataLayoutMigration.cpp:43-70 | a move is planned if and only if it is that of a listed file with a valid name, other than the marker, to its name in the directory of its class, and no file or directory is there |
| Migration.PlanIsSafe | src/DataLayoutMigration.cpp:43-70 | planned sources exist, planned destinations are free, and all sources and all destinations are distinct |
| Migration.PlannedMovesAreSafe | src/DataLayoutMigration.cpp:43-70 | the same for whichever of the moves succeed; no destination is a source, not even as references see it, so the theorems on references apply to every plan |
| Migration.RenameEntries | src/DataLayoutMigration.cpp:363-373 | the loop performs the renames that succeed and records them |
| Migration.SucceededIff | src/DataLayoutMigration.cpp:363-373 | the moves recorded are those whose rename succeeded |
| Migration.RenamingLosesNothing | src/DataLayoutMigration.cpp:363-373 | whichever renames fail, every file is at its old or its new place with its content, and no two files end at one place |
| Migration.UpdateAllProfiles | src/DataLayoutMigration.cpp:230-255 | the loop rewrites the profiles that load and save |
| Migration.SavingRewritesProfiles | src/DataLayoutMigration.cpp:230-255 | exactly those profiles are rewritten, each once, and no other file is touched |
| Migration.FollowActiveProfile | src/DataLayoutMigration.cpp:257-266 | the path of the active profile follows its file |
| Migration.MigratedFile | src/DataLayoutMigration.cpp:348-389 | whichever profiles were saved, every file is at its new place with its content, references in profiles apart |
| Migration.ReferencesStillResolve | src/DataLayoutMigration.cpp:348-389 | if profiles load and save, a reference that resolved names the place of its file, with the same content, if and only if the file did not move or its name has no backslash, also in a profile that was moved itself and whatever the other names are |
| Migration.ReferenceResolvesIff | src/DataLayoutMigration.cpp:348-389 | with failed saves: a reference that resolved names the place of its file if and only if the file did not move, or its profile was saved and its name has no backslash; if it moved and the profile was not saved, the reference names a missing file |
| Migration.DanglingReferenceStays | src/DataLayoutMigration.cpp:348-389 | a reference to a missing top-level file still names it, and it is still missing, after any sequence of starts, interrupted or not |
| Migration.InterruptionLeavesDanglingReference | src/DataLayoutMigration.cpp:348-389 | if a file moved and a profile that refers to it was not saved, the reference names a missing file after any number of further starts, whatever they plan, rename, save and mark |
| Migration.InterruptedStartLosesReference | src/DataLayoutMigration.cpp:363-389 | the smallest case: a map, a profile that names it, and a start interrupted after the rename |
| Migration.MigrateDataLayout | src/DataLayoutMigration.cpp:348-389 | nothing happens if the marker exists; otherwise plan, renames and profile updates, and the marker if there was nothing to do or something moved |
| Migration.MarkedMeaning | src/DataLayoutMigration.cpp:379-382 | the marker is an empty file of its name, and writing it changes nothing else |
| PlaneMigration.MovePlanes | src/DataLayoutMigration.cpp:273-346 | both loops queue the moves of the specification, and the profiles are updated if there are any |
| PlaneMigration.PlanePaths | src/DataLayoutMigration.cpp:273-312 | plane files move from profiles/planes to planes under the same name |
| PlaneMigration.RenamedIff | src/DataLayoutMigration.cpp:290-312 | a plane file is renamed if and only if it is listed, is there, its destination is free and the rename succeeds; then it is at the new place only, and otherwise where it was |
| PlaneMigration.EntriesAreQueuedOrLeftover | src/DataLayoutMigration.cpp:313-335 | the entries are the files just renamed and those whose old place is empty, each once |
| PlaneMigration.StartKeepsRecoverable | src/DataLayoutMigration.cpp:273-346 | a start, also one interrupted anywhere, keeps: files moved but not lost, references at the old or the new place of their file |
| PlaneMigration.StartsKeepRecoverable | src/DataLayoutMigration.cpp:273-346 | so does any number of starts |
| PlaneMigration.CompleteStartRestoresReferences | src/DataLayoutMigration.cpp:273-346 | after any number of interrupted starts, one complete start makes a reference that resolved originally name the place of its file, with the original content, if and only if the file did not move, which is to say that it is still at its old place, or its name has no backslash, whatever the other names are; the disk has come from the original one by those moves |
| PlaneMigration.NothingLeftToRename | src/DataLayoutMigration.cpp:290-312 | after a complete start whose renames all succeed no rename of a later start does |
| PlaneMigration.FurtherStartChangesNothing | src/DataLayoutMigration.cpp:273-346 | a further start after a complete one changes nothing at all if and only if none of its renames succeeds |
| PoPatcher.EntryBlockStart | tools/update_po_low_churn.py:140-158 | the loop walks up to the start of the entry |
| PoPatcher.LineKinds | tools/update_po_low_churn.py:68-158 | the kinds of lines by their characters: location, context, blank, and the metadata that may precede an entry |
| PoPatcher.StartOfMeaning | tools/update_po_low_churn.py:140-158 | the start of the entry at a line is the one line from which on only metadata leads to it, with no metadata before |
| PoPatcher.StartIsWhereMetadataBegins | tools/update_po_low_churn.py:140-158 | the start is the one line from which only metadata leads down to the entry, below a line that is none |
| PoPatcher.StartsAreMonotone | tools/update_po_low_churn.py:140-158 | later entries do not start earlier |
| PoPatcher.BuildBlocks | tools/update_po_low_churn.py:161-180 | fails exactly on repeated keys; otherwise the blocks tile the file from the first start to the end |
| PoPatcher.BlocksOverlap | tools/update_po_low_churn.py:203-209 | the loop finds a span that crosses the next |
| PoPatcher.BuiltBlocksDoNotOverlap | tools/update_po_low_churn.py:203-209 | there is none among sorted spans of built blocks |
| PoPatcher.ApplyReplacements | tools/update_po_low_churn.py:327-338 | falls back exactly on repeated starts; otherwise splices in descending order of start |
| PoPatcher.SplicingBackwardsSubstitutes | tools/update_po_low_churn.py:337-338 | splicing in place from the end is substituting all blocks at once in file order |
| PoPatcher.PatchingSubstitutes | tools/update_po_low_churn.py:289-338 | the same for replacements collected in any order |
| PoPatcher.SplitEntrySections | tools/update_po_low_churn.py:99-120 | the two loops cut an entry into prefix, msgid and msgstr sections without losing a line |
| PoPatcher.SectionsAreUnique | tools/update_po_low_churn.py:99-120 | there is only one such cut |
| PoPatcher.MergeKeepingMsgid | tools/update_po_low_churn.py:123-137 | for every cut of the old and the new entry, without location lines, into sections: the merged entry is the new prefix, the old msgid section and the new translation, or the new entry if the old has no msgid section |
| PoPatcher.StripOne | tools/update_po_low_churn.py:68-70 | location lines are those that begin with "#:"; they are dropped and others kept |
| PoPatcher.MergingIsIdempotent | tools/update_po_low_churn.py:123-137 | merging again, from either side, changes nothing |
| PoPatcher.InjectMsgctxt | tools/update_po_low_churn.py:82-96 | the loop drops old contexts and puts the new one before the first msgid line, or at the top |
| PoPatcher.InjectedReplaces | tools/update_po_low_churn.py:82-96 | the injected context is the only one, and dropping it restores the entry |
| PoPatcher.PatchedCatalogue | tools/update_po_low_churn.py:289-350 | the patched catalogue is the header and the new text of every entry in the old order, without location lines; unchanged entries lose nothing else |
| PoPatcher.NewTextMeaning | tools/update_po_low_churn.py:289-350 | the new text of an entry: none if removed, the old msgid section between new prefix and translation if changed, the injected lines if upgraded, its own lines if unchanged |
| Ms5611.PromFits | android/src/I2Cbaro.java:254-259 | the scaled coefficients are exact in their integer widths and in range, for all PROM words |
| Ms5611.Barometer.Setup | android/src/I2Cbaro.java:230-262 | fails with more than one zero word, otherwise takes the coefficients |
| Ms5611.Barometer.Loop | android/src/I2Cbaro.java:355-399 | reads the temperature every tenth time and reports the compensated pressure; dT and TEMP always come from one reading |
| Ms5611.SecondOrder | android/src/I2Cbaro.java:380-392 | the statements with their int overflow compute the second-order terms of the specification |
| Ms5611.TemperatureFits | android/src/I2Cbaro.java:366-367 | dT and TEMP are what unbounded integers give |
| Ms5611.DataSheetExample | android/src/I2Cbaro.java:355-399 | the example of the data sheet: its PROM words and readings give 20.07 degrees and 1000.09 mbar |
| Ms5611.NoWidthIsExceeded | android/src/I2Cbaro.java:377-395 | OFF, SENS and D1*SENS fit in 64 bits and P in 32, for all PROM words and readings |
| Ms5611.SecondOrderIsExactIff | android/src/I2Cbaro.java:380-392 | the second-order terms are exact if and only if TEMP is at least -15534 (offset) and -15472 (sensitivity) |
| Ms5611.ZeroReadingOverflows | android/src/I2Cbaro.java:366-392 | with the calibration of the data sheet's example a temperature reading of zero gives -269.14 degrees, where both terms are wrong |
| Ms5611.PressureIsAccurate | android/src/I2Cbaro.java:377-395 | from there upward the pressure is within 1.002 Pa of the rational formula, second-order terms included |
| Ms5611.PressureIsMonotone | android/src/I2Cbaro.java:395-395 | the pressure does not fall as D1 rises if SENS is not negative, and does not rise if it is not positive |
| ToolDescriptor.LocalizedKeyIs | src/SystemTools.cpp:103-111 | the index arithmetic accepts exactly the key with the language in brackets |
| ToolDescriptor.StripMeaning | src/SystemTools.cpp:130-139 | stripping removes spaces and control characters at both ends, and nothing else |
| ToolDescriptor.ClassifyMeaning | src/SystemTools.cpp:130-193 | what a line says: each of the nine assignments if and only if the line is no comment and the stripped text before its first equals sign is that key, with the stripped text after it as value; malformed without equals sign or with nothing before it; skipped if empty, a comment or another key |
| ToolDescriptor.ValueLimits | src/SystemTools.cpp:88-192 | the values allowed: texts without control characters of up to 80, 240 and 1000 characters, and the words that mode, input and confirmation take |
| ToolDescriptor.SetText | src/SystemTools.cpp:88-101 | fails exactly on a second value and on invalid text |
| ToolDescriptor.SetField | src/SystemTools.cpp:144-192 | each field fails exactly on a second or invalid value, and sets itself only |
| ToolDescriptor.ParseDescriptor | src/SystemTools.cpp:113-206 | the loop over lines computes the descriptor of the specification, or fails |
| ToolDescriptor.TakenLinesAreClean | src/SystemTools.cpp:130-193 | lines are taken if and only if all are well formed and no field is assigned twice or wrongly; a field then has the value its line assigns |
| ToolDescriptor.AcceptedDescriptors | src/SystemTools.cpp:113-206 | a descriptor is accepted if and only if its lines are clean and define the four mandatory fields; localized texts take the place of the defaults |
| ToolDescriptor.WrittenDescriptorIsRead | src/SystemTools.cpp:113-206 | round trip on text: any descriptor written as lines of keys, equals signs and values, in any order and among blank lines, comments and unknown keys, is read as that descriptor |
| ToolDescriptor.OrderDoesNotMatter | src/SystemTools.cpp:113-206 | acceptance and result are the same for every permutation of the lines |
| SystemTools.MergeTools | src/SystemTools.cpp:431-448 | the loop merges a directory into the catalogue |
| SystemTools.MergingKeepsSingles | src/SystemTools.cpp:431-448 | merging keeps the tools whose id occurs once, in order, and remembers the ids that occur more often |
| SystemTools.ContentsMeaning | src/SystemTools.cpp:450-457 | what the directories hold together: each tool of each directory, and nothing if one directory fails to load |
| SystemTools.OneMoreDirectory | src/SystemTools.cpp:450-457 | a directory contributes when it is named first, after those before it |
| SystemTools.MergeOrderDoesNotMatter | src/SystemTools.cpp:431-458 | the same tools are kept for every order of directories and files, and their ids are distinct |
| SystemTools.CombinedSizeIsFinalSize | src/SystemTools.cpp:474-481 | the size checked in advance is the size of the result |
| SystemTools.OverrideIsConsistent | src/SystemTools.cpp:468-481 | with the personal tools all ids are distinct, all personal tools are there, and a system tool exactly if no personal one has its id |
| SystemTools.LoadInstalled | src/SystemTools.cpp:421-505 | system tools whose id occurs once over all directories, overridden by the personal ones if those load and both together are at most 64; nothing if a directory fails to load or there are more than 64 system tools |
| RateLimiter.RunsAreSpaced | src/RateLimiter.cpp:15-34 | in every trace, with late timers and cancellations, two runs are at least the period apart less the lag of the clock the timer counts from |
| RateLimiter.TriggersAreServedInTime | src/RateLimiter.cpp:15-34 | a timer is due no less than the delay and no more than the period after the time at which the timer's clock was at the trigger, and never fires early; after the trigger itself Run() comes no sooner than the delay less the lag of that clock |
| RateLimiter.ServicesAnswerTriggers | src/RateLimiter.cpp:15-34 | every call of Run() is for a trigger of the trace, with the time and lag recorded for it |
| RateLimiter.TriggerIsPending | src/RateLimiter.cpp:15-27 | directly after a trigger, also one that finds a timer pending, a timer is pending that is due within the period |
| RateLimiter.TriggerIsServed | src/RateLimiter.cpp:15-34 | in every trace whose timers are late by no more than a bound, for every trigger: it is served within the period and that bound, or a timer is still pending that is due within the period and that time is not over, or a Cancel() came before it was over |
| RateLimiter.TriggerWasServed | src/RateLimiter.cpp:15-34 | so once that time is over, a trigger without a later Cancel() has been served in it |
| RateLimiter.NoRunAfterCancel | src/RateLimiter.hpp:40-42 | in every trace nothing runs between a Cancel() and the next trigger |
| RateLimiter.ScheduleMeaning | src/RateLimiter.cpp:15-27 | a trigger schedules the timer after the delay, or a period after the last run if that is later, counted from the timer's clock; a timer that is pending stays as it is |
| RateLimiter.PeriodIsRespectedIff | src/RateLimiter.cpp:15-27 | a trigger respects the period if and only if the timer counts from the present or the last run is long enough ago |
| RateLimiter.CachedClockShortensPeriod | src/RateLimiter.cpp:15-27 | one trace with a period of 10 and a clock that is 2 behind, in which two runs are 8 apart |
| RateLimiter.Limiter.OnTrigger | src/RateLimiter.cpp:15-27 | schedules once; the new state is that of the step |
| RateLimiter.Limiter.OnCancel | src/RateLimiter.hpp:40-42 | gives up the pending timer; the new state is that of the step |
| RateLimiter.Limiter.OnTimer | src/RateLimiter.cpp:29-34 | records the time and runs; the new state is that of the step |

## Left out

- OutputThread: two waits are one step each; real time, `setTimeout` and the exceptions of `close()` are left out.
- BleSerial: a reset is taken to end the operation outstanding in the stack; the connection state that `BleSerialPort` checks before a write is left out.
- GattQueue: payload decoding, connection retries and error reports of `BluetoothSensor` are left out; a missing descriptor counts as a refused write.
- Ioio: connect callbacks are taken to return normally and not to call back; `enable`, `disable`, `wakeUp` and the flags they set appear as the choices an agent reads in a round.
- Locks and their order, and with them deadlock, are not modelled: a synchronized method is one step.
- Gdl90Framing: a message identifier is one byte, of which the frame uses seven bits; the packers of message bodies and UDP are left out.
- TimeZoneParser: digits outside ASCII, which Python's `isdigit` accepts, and the range 1 to 9999 of `datetime` years are left out.
- TimeZoneOffsets: reading TZif files, the comparison with `zoneinfo` and the generated table are left out.
- Migration: the classification of data files, directory iteration and the syntax of profile files are inputs; a profile file that is saved again without a change counts as unchanged.
- Migration: the flags that tell the user interface which files changed, and `CreateRecursive`, are left out.
- LocalPath: the Windows variant, cache paths and the setters of the data directories are left out.
- PoPatcher: polib and the comparison of entries are inputs (sorted entries with line numbers, and what becomes of each); appending new entries at the end is left out.
- Ms5611: I2C transfers, waiting times and the BMP085 are left out.
- ToolDescriptor: UTF-8 validity and truncation are a predicate; the text of an error is left out.
- SystemTools: permission and ownership checks and the final sort by collated name are left out.
- RateLimiter: the event loop that keeps the timers is not part of this model, except that a timer does not fire early and may count from a cached time.

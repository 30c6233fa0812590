# RFID gate pipeline: a verified model

Students carry radio cards through a gate with two antennas. A *receiver* process per antenna queues
the packets its radio hears and sends them to the *merger*; the merger groups the readings of each
card into sessions, decides for every finished session whether the student went in, went out or
neither, and queues the decisions; a *cloud sender* uploads that queue in batches. This project
models that pipeline in Dafny and proves what it does over all inputs and all runs.

Where the source changes state, so does the model: the dictionaries are sentinel linked lists on the
heap, `check_timers` unlinks nodes with a trailing pointer, the queues are growable arrays, the
config parser fills two fixed buffers. Each such method is proved against a function on values, and
the main results are about those functions over whole runs.

| file | part of the source |
|---|---|
| `Dict.dfy` | the sentinel list dictionary |
| `Session.dfy` | one student's packed state and its meaning |
| `Sessions.dfy`, `Accounting.dfy` | the merger as a state machine, its specification, the refinement and its consequences |
| `Growable.dfy`, `Records.dfy`, `Sequences.dfy` | growable buffers, the notification records and their order |
| `Checksum.dfy`, `Merger.dfy` | packet filters and checksum, the merger on the heap |
| `FineGrained.dfy`, `Interleaved.dfy`, `Failures.dfy`, `Atomicity.dfy` | server and timeout threads interleaved at each dictionary call: what always holds, what can fail, and exactly which runs are atomic |
| `Cloud.dfy` | the cloud sender's protocol and code |
| `Framing.dfy`, `Receiver.dfy` | reading packets from a stream, the receiver's sending protocol and code |
| `Widths.dfy` | the packet and heartbeat lengths, two readings of one setting |
| `Gate.dfy`, `Pipeline.dfy` | the parts put together: one turn, one end of the pipe at a time, and all threads over whole runs |
| `Config.dfy`, `Channels.dfy`, `Encoding.dfy` | configuration files, channel lists and tuning, hexadecimal and percent-encoding |

## Results worth knowing

* **Thirteen bits are enough.** The two counters and the rotating tail, kept in two linked lists,
  give exactly the notifications of a specification that remembers every reading of every session
  (`Sessions.RunRefines`; on the heap `Merger.Merger.Replay`). A session is reported exactly when
  it has more than five readings and the majorities of its first and last five differ.
* **The missing lock costs something at one place, and the condition is exact.** `handle_student` takes
  no lock around its `get`, its `set` and its `set_timeout`. With the threads interleaved at each dictionary
  call nothing leaks and the timer list stays exact, but three things can go wrong, for every history, when
  the scan removes a student that is being read. Between the reading's `get` and `set`: a stale state is
  written back and the session is reported twice (`FineGrained.StaleWriteReportsTwice`). When the reading is
  written between the scan's `get` and `del`: it is in no session at all (`Failures.ReadingErased`). When it
  is written before the scan's `get` and its timer set after the scan: the session is closed although the
  student was just read, and a next reading starts another one however soon it comes
  (`Failures.SessionCutShort`). A run that leaves nothing unfinished agrees with the atomic merger at every
  quiet point if and only if it contains no such removal (`Atomicity.AtomicIff`); readings of other students
  may overlap a scan in any way. Less is needed for less: stored states are true histories if and only if no
  removal falls between `get` and `set` (`Interleaved.StatesAreHistoriesIff`), which is enough for the rate
  bound (`Interleaved.RateBoundUnlessClash`).
* **Whole records if and only if the limit is a multiple.** The cloud queue and every batch consist
  of whole records in all runs exactly when `http.max_data_len` is a multiple of the record size
  (`Cloud.WholeIffMultiple`). The comment at `config/merger.ini:32` asks for that; the value 20000
  below it, with packets of 10 bytes and so records of 22, is no multiple (`Cloud.ShippedLimitCutsRecords`).
* **No spliced packets if and only if three lengths fit** (`Receiver.FramingIff`). The length the receiver
  enqueues comes from `RX_PLOAD_WIDTH` read as a hexadecimal number (`receive/nrf.c:126`), the heartbeat
  length from the same setting read as a decimal one (`receive/sender.c:78`), the length the merger reads
  from `student.packet_size` (`merger/merger.c:13`, `merger/server.c:105`). Packets stay apart exactly when
  the first is the third and divides the second, which for a width in decimal digits means: the width is
  below 10 and the packet size one more (`Widths.DecimalWidthIff`). The shipped pairs 9 with 10 and 5 with 6
  are such; the pair 5 with 5 that `config/mulandianzi/README` asks for is not (`Widths.ShippedWidths`), and
  no packet size fits a width of 10, which gives packets of 17 and heartbeats of 11 bytes
  (`Widths.TwoDigitsSplice`).
* **Nothing enqueued is lost, and packets arrive exactly once if and only if every short send accepted less
  than one packet** (`Receiver.EnqueuedIsDelivered`, which counts equal packets as often as they were sent,
  and `Receiver.ExactlyOnceIff`).
* **The upload limit is no bound.** The queue is compared with `http.max_data_len` before the lock is taken;
  whatever the positive limit, notifications in between can make a batch that exceeds it
  (`Cloud.BatchMayExceedLimit`), and `Cloud.WithinLimitIff` says when a batch does not.
* **The checksum covers the channel byte.** A card payload whose bytes cancel passes `check_packet`
  exactly when it was heard on channel 0 (`Checksum.ChannelByteCounts`), and with the shipped filter
  settings such a payload is then dropped for its first byte (`Checksum.FilterMeaning`).
* **A configuration file is accepted if and only if it consists of complete lines**
  (`Config.AcceptedIffLines`); a last line without a newline makes `load_config` fail, although the
  settings before it are made.

Automatic induction is switched off on every lemma, so each proof is the one written in its body.
Where code and comments disagree the model follows the code. Threads appear as interleaved steps,
and the results over runs hold for every interleaving and every clock unless a row says otherwise.

## Model

| member | source | states |
|---|---|---|
| Dict.LinkedDict.Get | common/dict.c:10-19 | the value under the key, 0 when the key is absent, read from the heap list without changing it |
| Dict.LinkedDict.Set | common/dict.c:20-35 | an existing key keeps its position and gets the value, a new key goes behind the sentinel; the list stays acyclic with distinct keys |
| Dict.LinkedDict.Unlink | common/dict.c:36-41 | removes exactly the node after the given one, keeps the order of all others, and that is erasing its key |
| Dict.LinkedDict.Del | common/dict.c:42-52 | erases the key and returns true exactly when it was present |
| Dict.RunIsMap | common/dict.c:10-52 | over any sequence of get, set, del and unlinking of a node the list answers like a finite map with default 0, and keys stay distinct |
| Dict.StoreKeys | common/dict.c:20-35 | set leaves the key sequence unchanged or extends it by the new key at the front |
| Dict.EraseKeys | common/dict.c:36-52 | erasing removes exactly the one pair under the key and keeps all others in order; without such a pair nothing changes |
| Session.UnpackPack | merger/merger.h:7-19 | the three bit fields survive the trip through the integer |
| Session.TakeReading | merger/server.c:17-22 | the field updates of one reading, with the wrap-around of the bit fields |
| Session.Judge | merger/timeout.c:59-74 | the bit-counting loop and the comparisons compute the verdict of the packed state |
| Session.StateIsExact | merger/server.c:17-22 | after any history of any length the counters are the slave and master counts of the first min(5, n) readings and the tail is the bit string of the last min(5, n); nothing wraps |
| Session.ClassifyIsExact | merger/timeout.c:59-74 | the verdict of the packed state is: more than five readings, majorities of the first and last five differ, direction given by the first five |
| Session.CleanCrossing | merger/timeout.c:59-74 | a readings at one antenna then b at the other are reported exactly when a >= 3 and b >= 3, as IN from slave to master and OUT the other way |
| Session.ReverseFlips | merger/timeout.c:59-74 | a session read backwards gets the opposite verdict, at every length |
| Session.SwapFlips | merger/timeout.c:59-74 | exchanging the antennas gives the opposite verdict |
| Session.ReverseSwapKeeps | merger/timeout.c:59-74 | reversing and exchanging together keep the verdict |
| Session.WordOperations | merger/server.c:18 | shift, mask and increment on machine words are the arithmetic the model uses |
| Sessions.ReadingRefines | merger/server.c:12-29 | one reading on the two tables is one observation on the remembered histories |
| Sessions.ScanIsFilter | merger/timeout.c:44-83 | one scan keeps exactly the timers with now - value < timeout, in order, erases exactly the evicted keys from the students, and judges each evicted student by the state it had |
| Sessions.ScanRefines | merger/timeout.c:38-86 | one scan leaves the tables of the surviving sessions and emits the specification's reports for the closing ones, in list order |
| Sessions.RunRefines | merger/timeout.c:38-86 | whole-run refinement: every sequence of readings and scans, with any clock, emits event by event exactly the notifications of the specification that keeps all histories |
| Accounting.SessionsPartitionReadings | merger/timeout.c:38-83 | every reading of a student is in exactly one session: the histories of its closed sessions, then of its open one, are its readings in order |
| Accounting.NotificationsAreClosedSessions | merger/timeout.c:59-74 | a run's notifications are the reports of its closed sessions, in order and at most one for each |
| Accounting.MergerRateBound | merger/timeout.c:38-83 | six times the notifications plus the readings held in open sessions never exceeds the readings handled; both tables hold the same keys after every run |
| Accounting.SessionSurvives | merger/timeout.c:47 | between readings a session survives unchanged if and only if no scan finds it timed out; otherwise the student has no session |
| Accounting.CloseReadingsShareSession | merger/timeout.c:47 | readings less than the timeout apart extend the same session, for a clock that does not run back |
| Growable.Buffer.Reserve | merger/timeout.c:12-16 | after the reallocation test n more elements fit, contents and length are unchanged, and the block has the size the doubling rule gives |
| Growable.Buffer.Append | receive/sender.c:11-23 | appends the bytes behind the contents, reallocating exactly when they do not fit |
| Growable.UniformCapacity | merger/timeout.c:12-16 | after k reallocations for records of size R the capacity is 2R(2^k - 1) |
| Growable.CopiedBound | merger/timeout.c:12-16 | all reallocations together copied no more than the current capacity |
| Growable.RecordBuffer | merger/timeout.c:12-21 | for a buffer of records: that capacity, length within it, capacity below 2(peak + R), copying within the capacity |
| Records.Notify | merger/timeout.c:7-24 | appends exactly the ID, '1' or '0', and a dot behind the queue, growing it only for whole records |
| Records.ParseEncode | merger/merger.c:19-25 | a batch parses back to exactly the list of IDs and actions it was made of |
| Records.JudgedText | merger/timeout.c:59-74 | the record written for a packed state, as text: nothing for up to five readings or equal majorities of the first and last five, otherwise the ID, then 1 if the first majority is the slave's and 0 if not, then a dot |
| Records.CrossingText | merger/timeout.c:70-74 | a readings at one antenna then b at the other are written as the ID and "1." from slave to master, the ID and "0." the other way, exactly when a >= 3 and b >= 3 |
| Records.ScanWrites | merger/timeout.c:44-83 | what a scan queues is exactly that text for each session with now - last seen >= timeout, in list order |
| Records.EncodeSplit | merger/sender.c:44-47 | cutting an encoded queue at a multiple of the record size cuts between records |
| Records.BatchIsUrlSafe | merger/merger.c:22-23 | records of packet IDs need no escaping: percent-encoding leaves a batch unchanged |
| Checksum.CheckPacket | merger/server.c:3-9 | accepts exactly the packets whose bytes XOR to 0 |
| Checksum.OneWrongByte | merger/server.c:3-9 | a packet with one wrong byte is always rejected if the right one was accepted |
| Checksum.ChannelByteCounts | receive/receiver.c:19-22 | with the receiver's channel byte in front, a payload that XORs to 0 passes if and only if the channel is 0 |
| Checksum.PassesFilter | merger/server.c:118-130 | the test in front of handle_packet: some byte is not zero, or the first byte is not zero, by configuration |
| Checksum.FilterMeaning | merger/server.c:118-130 | heartbeats never become readings; for payloads that XOR to 0, exactly which settings and channels let them become readings |
| Checksum.FilterExact | merger/server.c:118-130 | for each of the four settings, exactly which packets become readings |
| Checksum.ValidIsRead | merger/server.c:34 | a card heard on a channel other than 0 whose payload XORs to the channel is read under every setting; with the checksum on no other payload is, with it off every payload is |
| Checksum.PassesIffEven | merger/server.c:3-9 | the checksum passes exactly when each bit is set in an even number of the packet's bytes |
| Merger.Merger.HandleStudent | merger/server.c:12-29 | on the heap: both dictionaries then represent the histories with this reading added, the queue is untouched |
| Merger.Merger.CheckTimers | merger/timeout.c:38-86 | on the heap: both dictionaries then represent exactly the surviving sessions, and the queue has grown by exactly the text of the sessions timed out |
| Merger.Merger.ScanTimers | merger/timeout.c:44-83 | the unlinking loop terminates and computes the scan; lists stay acyclic and separate |
| Merger.Merger.Evict | merger/timeout.c:48-57 | returns the state the student had, erases it, and unlinks just its timer |
| Merger.Merger.NotifyIfCrossed | merger/timeout.c:59-74 | the queue grows by the ID and "1." for a student coming in, the ID and "0." for one going out, and not at all without a verdict |
| Merger.Merger.ReceivePacket | merger/server.c:32-48 | a packet is observed under its hexadecimal ID exactly when it passes filter and checksum, otherwise nothing changes |
| Merger.Merger.Replay | merger/timeout.c:38-94 | for any run of atomic readings and scans the heap ends in the specification's sessions and the queue text is the encoding of the specification's notifications |
| Merger.SessionIsWritten | merger/timeout.c:38-94 | a student who is read with any history and then not seen for the timeout is written as just that text |
| FineGrained.NeverLeaks | merger/timeout.c:32-83 | with the threads interleaved at each dictionary call: every student has a timer or is the one whose timer the server is about to set; the timer list is exact at every point of a scan |
| FineGrained.ScanEndsExact | merger/timeout.c:46-83 | whatever the server does meanwhile, a scan leaves exactly the timers it found unexpired, in order |
| FineGrained.NotifiesOnlyWithState | merger/timeout.c:49-74 | only timed-out students whose state was found are notified; a timer without student state is removed silently |
| FineGrained.AtomicReading | merger/server.c:12-26 | the three calls of a reading, uninterrupted, are the atomic reading |
| FineGrained.StaleWriteReportsTwice | merger/server.c:14-26 | for every history there is an interleaving with one more reading in which the session is reported, written back and reported again |
| FineGrained.RateBoundNeedsAtomicity | merger/server.c:14-26 | so the rate bound does not hold of all runs: seven readings, two notifications; Interleaved.RateBoundUnlessClash is the other half |
| Interleaved.DropKeepsBooksIff | merger/timeout.c:51-53 | one removal keeps every stored and every looked-up state the packing of that student's readings if and only if it does not meet a reading of that student between get and set |
| Interleaved.BooksAreKeptIff | merger/server.c:14-26 | over whole runs: at every point each stored state, and the one looked up for a reading, is the packing of that student's readings since the last removal, if and only if no removal in the run is such a clash |
| Interleaved.StatesAreHistoriesIff | merger/server.c:14-26 | of the stored states alone, over whole runs that end with the last reading written: they are at every point the packings of the readings since the last removal, if and only if no removal in the run is such a clash |
| Interleaved.RateBoundUnlessClash | merger/server.c:14-26 | in every interleaving without a clash six readings are spent for each notification, on top of those held in the stored states |
| Interleaved.JudgedAreHistoriesIff | merger/timeout.c:49-74 | over whole runs: stored and looked-up states are at every point such packings, and what a scan is about to report is the whole history it removed, if and only if no removal in the run clashes or removes another state than the one read before |
| Interleaved.EveryReadingOnce | merger/timeout.c:49-74 | in those runs a student's readings are, in order, those of its closed sessions, its open one and the one on its way, and the notifications are the reports of the closed sessions |
| Failures.ReadingErased | merger/timeout.c:49-53 | for every history there is an interleaving with one more reading after which that reading is in no session: reported without it, the state gone, only a timer left, as after no atomic run |
| Failures.SessionCutShort | merger/timeout.c:47-53 | for every history there is an interleaving, with no removal of either kind above, that closes a session whose student was just read: the timer is set anew, the state is gone, any next reading starts another session, and no atomic run ends so |
| Atomicity.AtomicUnlessInterferes | merger/server.c:12-29 | every run in which no student is removed while being read, and which leaves nothing unfinished, equals the atomic merger on the readings and scans it completes: same tables, same notifications in the same order |
| Atomicity.AtomicIff | merger/timeout.c:49-57 | a run that leaves nothing unfinished agrees with the atomic merger on the events completed so far at every quiet point, if and only if in it no student is removed while being read |
| Cloud.TakesAreSafe | merger/sender.c:29-49 | in every run, despite the unlocked check: the take is possible, takes a nonempty batch that is the last max_data_len bytes or the whole queue, loses nothing, and a held batch is given up only when acknowledged |
| Cloud.WithinLimitIff | merger/sender.c:31-40 | in every run with a positive limit a batch stays within it if and only if the check found the queue over the limit, or the queue is still within it at the take |
| Cloud.BatchMayExceedLimit | merger/sender.c:31-40 | for every positive limit some run takes a batch that exceeds it |
| Cloud.NothingLost | merger/sender.c:20-67 | in every interleaving, with max_data_len a multiple of the record size, every notification ever made is exactly once queued, held or acknowledged, and all three consist of whole records in the order of the notifications |
| Cloud.QueueIsInOrder | merger/timeout.c:18-21 | notifications are queued one behind the other, in their order |
| Cloud.BatchIsLatest | merger/sender.c:31-47 | a batch takes the last k notifications when the limit has room for k records and there are more, otherwise all; the earlier ones stay queued |
| Cloud.Sender.PutNotification | merger/timeout.c:7-24 | the timeout thread's notify on the shared queue is the protocol's step: the ID, the action and a dot behind the queue |
| Cloud.WholeIffMultiple | merger/sender.c:31-47 | queue and batch are whole records in all runs if and only if max_data_len is a multiple of the record size |
| Cloud.ShippedLimitCutsRecords | config/merger.ini:32-33 | the shipped limit is none for the shipped packet size: some run cuts a record |
| Cloud.Sender.CheckLength | merger/sender.c:29-35 | the unlocked check is one step of the protocol on the shared queue |
| Cloud.Sender.TakeBatch | merger/sender.c:37-49 | the locked section is one step of the protocol, also when the queue has grown since the check |
| Cloud.Sender.Send | merger/sender.c:51-66 | the batch is kept after a failure and released after an acknowledgement |
| Cloud.Sender.CommitNotifyQueue | merger/sender.c:20-67 | an undisturbed call sends the held batch, else the end of the queue; the queue loses just that, and the batch is held or acknowledged by the reply |
| Framing.Socket.RecvN | common/http.c:11-26 | fills the buffer with the next bytes of the stream however they are chunked and interrupted; short only at the end, -1 only on an error |
| Framing.StreamIsPieces | common/http.c:11-26 | neither cuts nor interruptions change the stream; the first end or error, and only that, ends it |
| Framing.ReadPackets | merger/server.c:103-115 | completes exactly the whole packets of the stream and drops the partial rest |
| Framing.PrefixChunksKnown | merger/server.c:103-115 | from any prefix of a stream of known packets only known packets are completed |
| Receiver.FifoAndDiscipline | receive/sender.c:48-142 | in every run bytes enqueued = data sent ++ data held ++ queue; the socket is closed whenever try_connect starts; a held batch changes only by being sent completely |
| Receiver.ConnectionShape | receive/sender.c:98-142 | in every run each connection carries whole batches in the order sent, then at most a strict prefix of one batch, which the next connection carries from its first byte |
| Receiver.FramingIff | receive/sender.c:73-142 | every packet the merger completes from any part of any connection is one enqueued packet or all zero, in all runs, if and only if the merger reads the enqueued length and the heartbeat length is a multiple of it |
| Receiver.SentIsDelivered | receive/sender.c:98-142 | in every run the packets of the batches sent completely, heartbeats included, are among those completed from the connections, in order and each at least as often, however many sends were torn |
| Receiver.EnqueuedIsDelivered | receive/sender.c:73-142 | in every run the packets enqueued are, in order, those of the data sent, of the batch held and of the queue, and those of the data sent are completed from the connections in order, each at least as often as it was sent |
| Receiver.ExactlyOnceIff | receive/sender.c:98-105 | the packets completed from all connections are exactly those of the batches sent, once each and in order, if and only if every short send of the run accepted less than one packet |
| Receiver.PacketsMayRepeat | receive/sender.c:98-105 | the smallest run that fails this: one short send of one packet, and that packet arrives complete on two connections |
| Widths.ReadingsAgreeIff | receive/nrf.c:118-126 | for a width in decimal digits the hexadecimal and the decimal reading agree if and only if the value is below ten |
| Widths.Prefixed | receive/nrf.c:121 | a 0x in front counts for the hexadecimal reading and makes the decimal one 0 |
| Widths.SpacesAndSign | receive/nrf.c:121 | spaces in front do not count and a minus turns the sign, in both readings |
| Widths.WidthIff | receive/sender.c:78 | for any text of the setting, packets stay apart in all runs if and only if the two readings agree and the merger reads that length |
| Widths.DecimalWidthIff | receive/sender.c:78 | for decimal digits: if and only if the width is below ten and the packet size one more |
| Widths.ShippedWidths | config/mulandianzi/README:10-23 | the shipped pairs 9 with 10 and 5 with 6 keep packets apart, the documented pair 5 with 5 does not |
| Widths.TwoDigitsSplice | receive/nrf.c:118-126 | a width of two digits gives packets and heartbeats of different lengths, and no packet size keeps the packets apart |
| Receiver.BatchSender.AddToQueue | receive/sender.c:11-23 | one enqueue step of the protocol on the growable queue |
| Receiver.BatchSender.TryConnect | receive/sender.c:48-71 | one connect step; the descriptor is -1 again after a failure |
| Receiver.BatchSender.DoSend | receive/sender.c:73-111 | loads a batch only after a success, sends it, keeps it and closes the socket unless all of it was accepted |
| Receiver.BatchSender.CronSend | receive/sender.c:129-142 | with packets arriving at any point, every run of the code is a run of the protocol; exactly the arriving packets are enqueued; and when five transitions have full outcomes all data ever enqueued before is sent |
| Receiver.BatchSender.Proceed | receive/sender.c:129-142 | one transition of the state machine and what its outcome does: a connect that works opens a connection, a load takes the kept batch, the queue or a heartbeat, a send puts what was accepted on the connection and either counts the batch as sent or keeps it and closes the connection |
| Receiver.ScriptDelivers | receive/sender.c:129-142 | from any point of any run five transitions with full outcomes and no arrivals send everything held and queued |
| Gate.ServeOne | merger/server.c:103-131 | one turn for one connection: a complete packet is filtered and handled, an incomplete one closes the connection, an error ends the loop |
| Gate.ReadingsAreEnqueued | merger/server.c:103-131 | end to end: every reading taken from any part of any connection, however chunked, is a packet the receiver enqueued, under the condition of Receiver.FramingIff |
| Pipeline.EndToEnd | merger/server.c:69-132 | in every interleaving of turns on the two connections, scans, single notifications and sender steps: the packets completed are the first of each stream, their readings exactly the readings handled in order, and each notification of the specification for these events is exactly once pending, queued, held or acknowledged, each place holding them in order |
| Pipeline.EventsAreSteps | merger/timeout.c:38-47 | the readings and scans of a run are those its steps ask for: each scan with its own time and timeout, each reading with the antenna and the time of its turn |
| Pipeline.EveryStepCounts | merger/server.c:103-131 | each turn completes the next packet of its connection while there is one, and each notify step queues the next notification |
| Pipeline.NotifiedWereEnqueued | merger/server.c:103-131 | when both connections carry what two receivers send, under the condition of Receiver.FramingIff, every notification pending, queued, held or acknowledged is about a packet that one of the receivers enqueued |
| Gate.EmittedIds | merger/timeout.c:59-74 | only students that were read are ever notified |
| Pipeline.PendingCanBeQueued | merger/timeout.c:7-24 | in every such run a notification a scan has decided can be queued next |
| Gate.CloudTextIsExact | merger/merger.c:19-25 | for every run on packet IDs the queued text parses back to the specification's notifications and percent-encoding sends it unchanged |
| Config.Configuration.ParseConfig | common/config.c:42-84 | on files whose keys and values fit their buffers: terminates, returns whether the file was accepted, and puts its settings in front of the list |
| Config.Configuration.GetConfig | common/config.c:12-22 | the newest value of the key, empty if there is none |
| Config.Configuration.Load | common/config.c:86-107 | after loading a file each key has the last value the file gives it, else the value it had |
| Config.LinesParse | common/config.c:42-84 | round trip: a file of blank lines, comments, sections and settings is accepted and yields exactly its settings in order, and it stays within the two buffers if and only if every key and every value does |
| Config.AcceptedIffLines | common/config.c:42-84 | the parser returns true if and only if the file consists of complete lines |
| Config.UnfinishedLine | common/config.c:42-84 | behind complete lines a last setting without its newline is not made and the file is refused, but the settings before it are made |
| Config.CommentsSetNothing | common/config.c:46-50 | lines that begin with a semicolon or a bracket set nothing |
| Config.NulEnds | common/config.c:42-84 | what stands behind a NUL byte is not read |
| Config.SettingLine | common/config.c:60-83 | `key = value` sets exactly that key to that value, for all characters from ! to ~, with any invisible characters around the equals sign, and with or without quotes around the value |
| Config.NewestFileWins | common/config.c:24-32 | after any number of reloads a key has the last value of the newest file that defines it |
| Channels.ParseChannels | receive/nrf.c:204-229 | the bitmap is exactly the set of maximal digit runs with a value below 256; count and last channel are those of the list with repetitions |
| Channels.ChannelsAreListed | receive/nrf.c:210-229 | the collected channels are exactly the listed ones |
| Channels.ListOfOne | receive/nrf.c:210-229 | one number is one channel if it is below 256 and none otherwise |
| Channels.ListsConcatenate | receive/nrf.c:210-229 | the channels of two lists with any separator between them are those of the first and then those of the second, with repetitions |
| Channels.AlwaysOnLargest | receive/nrf.c:195-244 | over every sequence of lists the radio is on the largest channel of the latest list that has one |
| Channels.SkipsOnlyWhenTuned | receive/nrf.c:235-237 | the skip branch is taken only when the radio is on the sole configured channel |
| Channels.SkipsIffRepeated | receive/nrf.c:235-237 | the skip branch is taken exactly when the setting names one channel and is the same as in the round before |
| Channels.RepeatedTunesOnce | receive/nrf.c:235-241 | the same sole channel, however often repeated, is tuned once |
| Channels.Switcher.SwitchChannels | receive/nrf.c:182-193 | initializes the radio on exactly the set channels in ascending order |
| Channels.Switcher.SwitchRound | receive/nrf.c:199-243 | one round parses the list and sweeps, skips or does nothing as the rule says |
| Channels.Switcher.CronChannelSwitch | receive/nrf.c:195-244 | after every sequence of settings the radio is on the largest channel of the latest setting that has one, and was tuned by one sweep for every setting but a repeated sole channel |
| Hex.SprintBuf | common/common.c:44-54 | two lower-case digits per byte and a final NUL, in a buffer of 2n + 1 |
| Hex.LoadHexConfig | receive/helper.c:20-41 | nothing without the prefix or with an odd number of digits, otherwise the bytes of the digit pairs |
| Hex.ConfigRoundTrip | receive/helper.c:20-41 | loading what sprint_buf writes, behind either prefix, gives back every byte array |
| Hex.HexDigits | common/common.c:44-54 | each byte is written as the two lower-case digits of its value, high digit first |
| Hex.RefusedIff | receive/helper.c:20-31 | a setting is refused exactly when it does not begin with 0x or 0X or has an odd number of characters |
| Hex.BadDigits | receive/helper.c:32-35 | which byte two characters store, also when one or both are no hexadecimal digits |
| Hex.HexInjective | merger/server.c:39-45 | different packets have different student IDs |
| Hex.PrintsBackIffHex | receive/helper.c:32-35 | bad digits are not noticed: the stored bytes print back as the setting if and only if all characters are hexadecimal digits |
| Url.UrlEncode | common/http.c:149-167 | writes the encoding and a NUL within 3n + 1 characters, for seven-bit text |
| Url.EscapeExact | common/http.c:154-163 | letters, digits and . - * _ stand for themselves, every other character becomes a percent sign and two lower-case digits |
| Url.UrlRoundTrip | common/http.c:149-167 | percent-decoding by section 2.1 of RFC 3986 recovers every seven-bit text |
| Url.UnchangedIffLiteral | common/http.c:154-163 | text is unchanged if and only if every character may stand for itself |

## Left out

- Merger.Merger.Replay: readings and scans are atomic steps on the heap; the finer interleaving is modelled on values in `FineGrained.dfy`, and `Atomicity.AtomicIff` says which of its runs are runs of the atomic merger.
- Interleaved.RateBoundUnlessClash: a run with a clash may still meet the bound by chance; the condition is exact for the stored states (`Interleaved.StatesAreHistoriesIff`), not for the number of notifications.
- Receiver.BatchSender.CronSend: runs for a given finite script of arriving packets and outcomes instead of for ever.
- Receiver.ExactlyOnceIff: packets completed from whole connections; when a new connection replaces one that is not read to its end, the merger completes fewer (`Receiver.FramingIff` covers any part of a connection).
- Pipeline.EndToEnd: two connections, each given by the bytes it delivers; new connections are not accepted during the run.
- Widths.WidthIff: numbers beyond the range of a long are not cut off.
- Config.Configuration.ParseConfig: keys and values of 100 characters or more overrun the buffers of the source, so they are excluded by the precondition; the file is given as text, and reading stops at a NUL byte as in the source.
- Cloud.NothingLost: a negative max_data_len is not modelled; 0 means no limit, as in the code.
- Receiver.BatchSender.AddToQueue: all packets have one length, as the caller in receive/receiver.c passes them.
- Races inside one dictionary walk: every dictionary call is atomic.
- clear_timeout: never called.
- Sockets, DNS, poll, http_post and the inside of cloud_send: recv, send and connect are given outcomes, a cloud reply is acknowledged or not.
- Overflow of clocks, of lengths and of very long digit strings in a channel list: integers are unbounded except for bit fields and bytes, which wrap explicitly.
- Allocation failure, freeing of memory, reload of a configuration during a single call.
- Watchdog, heartbeat timers to the cloud, get_master_ip, queue-length warnings and logging.
- The radio itself (SPI registers, interrupts), the sending tools, SMS, the region test display and deployment.

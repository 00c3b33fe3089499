# FAZIA data acquisition: a verified model

This project models the data path and the run control of the FAZIA acquisition software and proves
what they keep. To verify: `dafny verify dfyconfig.toml`.

**The event machine** (`src/parser/FzFSM.cpp`, tag format). `EventMachine` defines the machine as a
function of its whole state: control fields, check accumulators, event tree, verdict flags and
counters. `FzFSM.FSM` is the machine as the source has it, a class whose transitions update fields
and follow handles into a growing tree; `FSM.Process` is proved equal to the function `Run` on every
chunk of words. What the machine does is then proved about `Run`:

- `Acceptance`: the chunks it accepts are exactly those whose classes spell a regular expression.
- `Accumulators`, `Verdict`: the running lengths and check values are those of exactly the words of
  the open block and card, and an event counted good has only clean blocks and cards.
- `Handles`: handles are the live last nodes of the tree, also after a trigger block was removed.
- `Wire`, `RoundTrip`, `Recovery`: every well-formed event that is encoded, with EMPTY words between
  any two dispatched words and void tags among its records, is parsed back to its tree.
- `Printer`: trees, and the trigger information of their records, are printed as wire events that mean,
  and are parsed to, the same tree.
- `BasicFormat`: the batch loop of the basic format refines one step per word, and when the loop leaves
  a node without energies.

**The stream around it.** `Reader` cuts packets into events, `Parser` counts and forwards, `Pipeline`
composes both with the round trip (packets in, trees out), `Framing` and `Writer` store messages in
rotating files, `Transmitter` packs the Centrum words into a frame header.

**Run control.** `RunControl` is the state machine, `NodeManager` a node with its workers, `Cluster`
the controller and its broadcasts in any delivery order, `Ecc` the service that drives them.

**Smaller pieces.** `Registry` is the controller's map and deque of nodes; `Coap` and `CoapCodec` are
the CoAP encoder and decoder of the bundled network library (sections 3 and 3.1 of RFC 7252).

`Words` and `Bytes` hold bit fields, exclusive-or and check words; `EventTree` the tree; `Grammar` the
regular expressions.

Some properties that one would expect do not hold of the code. For each there is an input that shows
it, and the exact condition under which the property does hold:

| property | input | condition |
|---|---|---|
| check values are those of the words read | `Accumulators.ZeroWaveformLosesChecks` | `Accumulators.ChecksExact` |
| a correct block length is accepted | `Pipeline.BoundaryEventIsBad` | `Verdict.BlockLengthVerdict`, `Recovery.BlocksClean` |
| the main loop leaves a basic-format data node | `BasicFormat.ZeroLengthHangs` | `BasicFormat.PhaseLeaves` |
| the cut into packets does not matter | `Reader.DiscardHappens` | `Reader.PacketsDoNotMatter` |
| stored messages are read back | `Framing.EmptyMessageHidesRest` | `Framing.UnframeFrames`, `Writer.ReadBackStored` |
| run numbers are read back from directory names | `Framing.DigitInTagMisleads` | `Framing.ScanExact` |
| the frame header holds the last Centrum words | `Transmitter.RepeatedCentrumMixes` | `Transmitter.CentrumExact` |
| a node agrees with the controller | `Cluster.OvertakingDisagrees` | `Cluster.NodesFollow` |
| the ECC service is in step with run control | `Ecc.LostCommandBreaksStep` | `Ecc.InStepUnlessHarmful` |
| the loops over the registry end | `Registry.CrowdHangs` | `Registry.TouchLeaves`, `Registry.CleanLeaves` |
| a composed CoAP packet parses back | `Coap.LargeNumberIsLost` | `Coap.RoundTrip` |
| so does all the space reserved for it | `Coap.SpareByteAddsOption` | `Coap.ReservedRoundTrip` |

## Model

| member | source | states |
|---|---|---|
| Words.FieldsPartition | src/parser/FzFSM.h:12-25 | The header fields of a word (data type, detector, card, telescope) are disjoint and, with the class bits, make up the whole word; counters, identifiers and check bytes are cut from the same bits |
| Words.CheckWords | src/parser/FzFSM.cpp:39-89 | LENGTH and CRC words as an encoder writes them are classified as such and carry exactly the field that is read back |
| Words.ClassRanges | src/parser/FzFSM.cpp:39-89 | Every word, by its value: data below 0x8000, EMPTY 0x8000 to 0x8FFF, and so on up to end-of-event words from 0xF000 |
| Words.FoldIsByteXor | src/parser/FzFSM.cpp:1660-1675 | The folded 16-bit accumulator is the exclusive-or of all bytes of the words |
| EventMachine.TransitionSource | src/parser/FzFSM.h:100-125 | Each transition 2 to 18 of the table is taken from exactly one state on exactly one word class; transition 1 is every word in idle other than EC and EMPTY |
| EventMachine.FeedConcat | src/parser/FzFSM.cpp:260-303 | Accumulating words one part after another is accumulating their concatenation |
| EventMachine.Turn | src/parser/FzFSM.cpp:114-252 | One iteration of the main loop: the index never goes back, and stays only when a pending payload stops being pending, which is why the loop ends |
| EventMachine.Run | src/parser/FzFSM.cpp:101-258 | The main loop terminates on every chunk and keeps the typestate of the open chain |
| FzFSM.FSM.constructor | src/parser/FzFSM.cpp:9-21 | A new machine is idle with an empty event, zeroed counters and valid handles |
| FzFSM.FSM.Import | src/parser/FzFSM.cpp:91-99 | Attaching a chunk resets the state and the event and nothing else |
| FzFSM.FSM.UpdateBlk | src/parser/FzFSM.cpp:260-277 | The block length grows by one and the block check value takes in the current word |
| FzFSM.FSM.UpdateFee | src/parser/FzFSM.cpp:279-297 | The same for the card |
| FzFSM.FSM.NextEventWord | src/parser/FzFSM.cpp:299-304 | After a step forward both accumulators hold all payload words read so far |
| FzFSM.FSM.Trans02 | src/parser/FzFSM.cpp:321-348 | A block is opened: its node, its counter, and accumulators that restart at the EC word |
| FzFSM.FSM.Trans03 | src/parser/FzFSM.cpp:350-386 | A card and its first hit are opened, the card's check restarting at the last EC |
| FzFSM.FSM.Trans04 | src/parser/FzFSM.cpp:388-402 | The hit's time tag |
| FzFSM.FSM.Trans05 | src/parser/FzFSM.cpp:404-421 | First the detector tag, from then on the trigger pattern |
| FzFSM.FSM.Trans06 | src/parser/FzFSM.cpp:423-538 | The hit's detector and a data node of the detected type; an unknown type marks the event |
| FzFSM.FSM.Trans07 | src/parser/FzFSM.cpp:576-632 | The first tag of a record opens its waveform or energy node and moves the handle to it |
| FzFSM.FSM.StoreTag | src/parser/FzFSM.cpp:589-622 | A tag other than the void tag is pending afterwards; its node exists and its handle is the current data |
| FzFSM.FSM.ReadPretrigger | src/parser/FzFSM.cpp:924-926 | The pretrigger count is the payload word |
| FzFSM.FSM.GatherSamples | src/parser/FzFSM.cpp:928-952 | The samples are exactly the announced words; the saved check values are those one word before the last word read ahead |
| FzFSM.FSM.ReadWaveform | src/parser/FzFSM.cpp:928-964 | After the undo the accumulators hold exactly the payload when its length is not zero, and stale check values when it is zero |
| FzFSM.FSM.ReadEnergy | src/parser/FzFSM.cpp:966-1003 | Rise time and two words complete one energy entry |
| FzFSM.FSM.ReadBaseline | src/parser/FzFSM.cpp:1005-1020 | The baseline is a signed number of two words, kept in sixteenths |
| FzFSM.FSM.ReadCounters | src/parser/FzFSM.cpp:1022-1034 | One trigger information record per word, in order |
| FzFSM.FSM.ReadPair | src/parser/FzFSM.cpp:1036-1063 | Time, time tag and event counter records from a pair of words and the hit's fields |
| FzFSM.FSM.ReadSingle | src/parser/FzFSM.cpp:1065-1077 | Trigger pattern and temperature records |
| FzFSM.FSM.ReadCentrum | src/parser/FzFSM.cpp:1079-1112 | The four Centrum records from seven words |
| FzFSM.FSM.Trans08Header | src/parser/FzFSM.cpp:858-922 | Tag or length word of a record in state 5 |
| FzFSM.FSM.Trans08Payload | src/parser/FzFSM.cpp:966-1134 | A whole payload is one dispatch of as many words as its tag reads |
| FzFSM.FSM.Trans08Waveform | src/parser/FzFSM.cpp:928-964 | A waveform of announced length n is one dispatch of n words |
| FzFSM.FSM.Trans08ZeroWaveform | src/parser/FzFSM.cpp:928-964 | With announced length zero the index goes back by one and the machine is rewound, nothing else changes |
| FzFSM.FSM.Trans09 | src/parser/FzFSM.cpp:1326-1436 | The open hit is closed and a new hit of the same telescope opens with its data |
| FzFSM.FSM.Trans10 | src/parser/FzFSM.cpp:1519-1548 | The open hit is closed and a hit of another telescope opens |
| FzFSM.FSM.Trans11 | src/parser/FzFSM.cpp:1609-1621 | The hit is closed and the card's declared length stored |
| FzFSM.FSM.Trans12 | src/parser/FzFSM.cpp:1623-1675 | The card's length and check verdicts |
| FzFSM.FSM.Trans13 | src/parser/FzFSM.cpp:1677-1692 | The next card counter |
| FzFSM.FSM.Trans14 | src/parser/FzFSM.cpp:1694-1706 | The block identifier |
| FzFSM.FSM.Trans15 | src/parser/FzFSM.cpp:1708-1727 | The declared block length; only the check value takes in this word |
| FzFSM.FSM.Trans16 | src/parser/FzFSM.cpp:1729-1790 | The block's verdicts; a trigger block with a correct check leaves the tree |
| FzFSM.FSM.Trans17 | src/parser/FzFSM.cpp:1792-1817 | The next block of the event is opened |
| FzFSM.FSM.Trans18 | src/parser/FzFSM.cpp:1819-1868 | The event ends: it is empty, or counted good or bad |
| FzFSM.FSM.EventIsEmpty | src/parser/FzFSM.cpp:1826-1852 | True exactly when the event has no trigger information and no block with a card |
| FzFSM.FSM.Switch | src/parser/FzFSM.cpp:127-249 | The transition of the table is made, and completion reported exactly for transition 18 |
| FzFSM.FSM.Turn | src/parser/FzFSM.cpp:114-252 | The loop body, on fields and handles, is one turn of the specified machine |
| FzFSM.FSM.Process | src/parser/FzFSM.cpp:101-258 | The loop ends on every chunk and leaves exactly the state, the tree, the counters and the result of the specified run |
| FzFSM.FSM.HandlesAreLive | src/parser/FzFSM.cpp:350-386 | In every reachable state each handle the next transition dereferences is the last live node of its level |
| Handles.BlockHandle | src/parser/FzFSM.cpp:1729-1790 | The block handle is the last block, and writing through it changes only that block |
| Handles.FeeHandle | src/parser/FzFSM.cpp:1623-1675 | The same for the last card of the last block |
| Handles.HitHandle | src/parser/FzFSM.cpp:388-421 | The same for the last hit |
| Handles.DataHandle | src/parser/FzFSM.cpp:576-632 | The same for the data node of the last hit |
| Acceptance.TableAccepts | src/parser/FzFSM.h:100-125 | The table is in state 10 exactly when the classes since an idle moment spell one or more blocks |
| Acceptance.ReachedSince | src/parser/FzFSM.h:100-125 | In every state the classes since the last idle moment spell the expression of that state |
| Acceptance.RunState | src/parser/FzFSM.cpp:114-252 | The state after a run is the table's state after the dispatched classes |
| Acceptance.RunCompletes | src/parser/FzFSM.cpp:114-252 | A chunk with its only REGID at the end is parsed exactly when the last dispatched word is that REGID and the table was in state 10 |
| Acceptance.Accepts | src/parser/FzFSM.cpp:114-257 | On such a chunk the result is PARSE_OK exactly when the dispatched classes, from some idle moment on, spell (EC (FEE EC)* BLKID LENGTH CRCBL)+ REGID |
| Acceptance.InvalidResynchronises | src/parser/FzFSM.cpp:114-311 | After an invalid word the rest of the chunk is treated like a chunk of its own that was just attached: same result, tree, flags and counters |
| Acceptance.EndOfEventClears | src/parser/FzFSM.cpp:101-311 | A word from 0xF000 on in any state but idle clears the event, and the rest is parsed like a new chunk |
| Accumulators.BlockStep | src/parser/FzFSM.cpp:260-277 | One dispatch keeps: the block length and check value are those of the words since the opening EC |
| Accumulators.CardStep | src/parser/FzFSM.cpp:279-303 | The same for the card, from its own EC |
| Accumulators.TurnCounts | src/parser/FzFSM.cpp:928-964 | Every turn keeps the counts; it keeps the check values except across a zero-length waveform, and there exactly when the saved values equal the current ones |
| Accumulators.HeadsCount | src/parser/FzFSM.cpp:114-252 | At every loop head of every run from idle the counts hold, and the check values too when no zero-length waveform was met |
| Accumulators.ChecksExact | src/parser/FzFSM.cpp:928-964 | The check values are right at every loop head up to any point exactly when every zero-length waveform before it restores the values the accumulators have anyway |
| Accumulators.CheckIsByteXor | src/parser/FzFSM.cpp:1660-1675 | What check bytes are compared with is the exclusive-or of all bytes of the covered words |
| Accumulators.SavedAreOfLastWaveform | src/parser/FzFSM.cpp:928-964 | The values restored are those at the end of the last waveform with samples, of whatever event, or those the machine started with |
| Accumulators.ZeroWaveformLosesChecks | src/parser/FzFSM.cpp:928-964 | Seven words after which the check value is wrong |
| Verdict.TurnSound | src/parser/FzFSM.cpp:1749-1789 | Every turn that does not end the event keeps: without an error flag all nodes so far are clean, and closed cards are complete |
| Verdict.CompletingTurn | src/parser/FzFSM.cpp:1826-1867 | The last turn counts the event once; good means that every block and card is clean |
| Verdict.RunVerdict | src/parser/FzFSM.cpp:101-258 | A parsed event is complete (each card has a hit, each hit exactly one data node) and counted once; good only when clean |
| Verdict.BlockLengthVerdict | src/parser/FzFSM.cpp:1755-1762 | The block length test is equality modulo 4096 except for true lengths 0 and 1 modulo 4096, where it always fails |
| Pipeline.BoundaryEventIsBad | src/parser/FzFSM.cpp:1755-1762 | A block of 4096 words, encoded correctly, is parsed, flagged and counted bad |
| Verdict.BlockVerdict | src/parser/FzFSM.cpp:1729-1790 | For every run, the flags of the emitted block compare the declared length and check byte with those of its own words |
| Verdict.CardVerdict | src/parser/FzFSM.cpp:1623-1675 | For every run, the flags of the card do the same; here the length test is exact |
| Verdict.ZeroWaveVerdict | src/parser/FzFSM.cpp:1116-1134 | A waveform of length zero keeps the samples already there and is faulty exactly when there are some |
| RoundTrip.RunFeeds | src/parser/FzFSM.cpp:101-258 | A run over units of words, with EMPTY words between them, is one dispatch per unit |
| RoundTrip.RecordFeeds | src/parser/FzFSM.cpp:858-1134 | An encoded record, or a void tag, adds exactly the meaning of the record to the data node |
| RoundTrip.HitsFeeds | src/parser/FzFSM.cpp:1326-1436 | The encoded hits of a card build exactly these hits |
| RoundTrip.CardFeeds | src/parser/FzFSM.cpp:1609-1692 | An encoded card is added with both flags clear |
| RoundTrip.BlockFeeds | src/parser/FzFSM.cpp:1708-1790 | An encoded block is added with a clear check flag, and a length flag only at the length boundary; a trigger block is dropped |
| RoundTrip.BlocksFeeds | src/parser/FzFSM.cpp:1792-1817 | Encoded blocks one after another build exactly these blocks |
| RoundTrip.EventFeeds | src/parser/FzFSM.cpp:1819-1868 | An encoded event completes with its own tree and one count |
| RoundTrip.DecodesEncoded | src/parser/FzFSM.cpp:101-258 | Round trip: every well-formed event, encoded with correct LENGTH and CRC words and any EMPTY words between units, is parsed to its own tree |
| Printer.PrintedMeans | src/parser/FzFSM.cpp:858-1134 | Every tree whose fields fit their words and that has no scaled energies, with any trigger information from records in its first hit, is the meaning of what is printed for it |
| Printer.PrintedIsParsed | src/parser/FzFSM.cpp:101-258 | The printed words of such a tree are parsed to that tree |
| Printer.InfosRead | src/parser/FzFSM.cpp:1022-1112 | Each record of counters, time, time tag, event counter, pattern, temperature and Centrum words leaves the entries with its identifiers and values in the order printed, and nothing else |
| Printer.InfoSplits | src/parser/FzFSM.cpp:1045-1064 | The time tag entry splits into the 30-bit number of the record and the time tag of the hit, the counter entry into the 30-bit number and the 12-bit counter |
| Recovery.VoidsIgnored | src/parser/FzFSM.cpp:864-907 | The void tag 0x3030 changes nothing of what the records mean |
| Recovery.OtherTagsIgnored | src/parser/FzFSM.cpp:858-1134 | A record of any tag that is not listed has one payload word, which changes nothing |
| Recovery.WaveformRecovered | src/parser/FzFSM.cpp:924-964 | The samples of the data node are those of the waveform records, the pretrigger that of the last pretrigger record, and the event is faulty exactly when a detector has two waveforms |
| Recovery.BaselineAndInfoRecovered | src/parser/FzFSM.cpp:1005-1112 | The baseline is that of the last baseline record, the data type that of the detector word, and the trigger information is gathered in the order of the records |
| Recovery.BaselineIsSigned | src/parser/FzFSM.cpp:1005-1020 | Two 15-bit words are read as a 30-bit two's complement number |
| Recovery.EnergyRecovered | src/parser/FzFSM.cpp:966-1003 | The energies are the scaled values of the energy records, in order |
| Recovery.SlowThenFast | src/parser/FzFSM.cpp:966-1003 | A record 0x7001 and then one 0x7002 give two energies, each from its rise time and the 30-bit number of its own two other words |
| Recovery.SlowAgain | src/parser/FzFSM.cpp:966-984 | A second slow record shifts its low word into the first energy, modulo 2^32, and leaves its high word as a second entry |
| Recovery.DetectedTypeExact | src/parser/FzFSM.cpp:423-538 | The type of data of every detector header, by card number, detector and data code |
| Recovery.HitsRecovered | src/parser/FzFSM.cpp:1326-1436 | For every hit of a card: time tag, detector tag and trigger pattern are those of the last telescope header at or before it, the identifiers those of its own header words, the counter that of the card for the first hit and of the block for all others |
| Recovery.CardsFaulty | src/parser/FzFSM.cpp:1640-1674 | Encoded cards are faulty exactly when one of their hits has an unknown type or two waveforms |
| Recovery.BlocksFaulty | src/parser/FzFSM.cpp:1749-1789 | An encoded event is counted bad exactly when a block is at the length boundary or holds a faulty card |
| Recovery.CardsClean | src/parser/FzFSM.cpp:1623-1675 | Encoded cards have clear flags and are complete |
| Recovery.BlocksClean | src/parser/FzFSM.cpp:1729-1790 | An encoded event has only clear flags exactly when none of its blocks, trigger blocks aside, is at the length boundary |
| Recovery.BlocksKept | src/parser/FzFSM.cpp:1774-1786 | The blocks of the tree are those of the event in order, without those numbered 0x7FF |
| Recovery.EmptyExactly | src/parser/FzFSM.cpp:1835-1850 | An event is empty exactly when no record carries trigger information and no block but trigger blocks has a card |
| BasicFormat.BasicData.GatherBatch | src/parser/FzFSM.cpp:664-698 | The batch loop, which runs ahead and steps back, ends where one step per word would: same samples, lengths and index, EMPTY words included; the REGID keeps it inside the chunk |
| BasicFormat.BasicData.Trans08 | src/parser/FzFSM.cpp:634-764 | One basic-format data transition equals the single steps it stands for |
| BasicFormat.BasicData.DataPhase | src/parser/FzFSM.cpp:634-764 | A whole data phase does |
| BasicFormat.LayoutRecovered | src/parser/FzFSM.cpp:634-764 | Header words and samples laid out for QH1, Q2 or Q3 are read back: energies, pretrigger, samples and lengths |
| BasicFormat.PhaseLeaves | src/parser/FzFSM.cpp:766-851 | For every chunk and every node, the main loop leaves the data phase, at a word of another class or at the end of the chunk, exactly unless its node is of kind I1, QL1, I2 or UNKDT, announces no samples, and then meets one more data word |
| BasicFormat.PhaseIsSimpleRun | src/parser/FzFSM.cpp:634-764 | For a node with energies the phase ends, in the state of the simple run that the batches refine |
| BasicFormat.PhaseStep | src/parser/FzFSM.cpp:766-851 | A turn inside the phase goes forward, or changes nothing at all in exactly that case; no turn causes or cures it |
| BasicFormat.BasicData.Trans08Plain | src/parser/FzFSM.cpp:766-851 | Length word, or sine and cosine of an ADC node and the announced samples: the loops with their undo are one turn of the specified phase |
| BasicFormat.BasicData.FetchSine | src/parser/FzFSM.cpp:786-816 | An ADC node counts six words more, any other none |
| BasicFormat.BasicData.GatherAnnounced | src/parser/FzFSM.cpp:818-843 | Exactly the announced number of words become samples and are counted |
| BasicFormat.BasicData.PlainPhase | src/parser/FzFSM.cpp:114-252 | Outside that case the main loop terminates inside such a node and ends where the turns end |
| BasicFormat.ZeroLengthHangs | src/parser/FzFSM.cpp:766-851 | On the words 0, 5, REGID the loop never ends, for every kind but ADC |
| BasicFormat.PlainLayoutRecovered | src/parser/FzFSM.cpp:766-851 | A length and that many samples are read back, behind sine and cosine for ADC, every word counted once |
| Reader.EndOfEventIsRegid | src/reader/FzReader.cpp:167-193 | The reader's end-of-event test is the machine's REGID class |
| Reader.FzReader.Push | src/reader/FzReader.cpp:159-193 | One word is kept, or ends and sends the event |
| Reader.FzReader.UdpHandler | src/reader/FzReader.cpp:109-217 | The words that a packet carries behind a header of two words, or of three with 0x8080 among them, are cut at end-of-event words, continuing the chunk kept before; a chunk of the maximum size or more is discarded; every counter |
| Reader.CarriedIsPayload | src/reader/FzReader.cpp:150-159 | Both header forms are stepped over: what stands behind the header is what is cut |
| Reader.PacketsCarry | src/reader/FzReader.cpp:150-159 | Every packet of more than two words has one of these forms, and shorter ones hold nothing |
| Reader.CutKeepsStream | src/reader/FzReader.cpp:159-193 | Events sent and the chunk kept concatenate to the words received, and each event ends in its only REGID |
| Reader.CutInverts | src/reader/FzReader.cpp:159-193 | Cutting is the inverse of concatenation: no other cut of the same words exists |
| Reader.ReceiveBounded | src/reader/FzReader.cpp:205-217 | Between packets the chunk stays below the maximum size, whatever arrives |
| Reader.PacketsDoNotMatter | src/reader/FzReader.cpp:155-217 | The result depends on the word stream only exactly when at no packet boundary the stream has too many unfinished words; otherwise words are lost |
| Reader.SameStreamSameEvents | src/reader/FzReader.cpp:155-217 | Two packetisations of one stream without a discard give the same events and the same chunk |
| Reader.DiscardMatters | src/reader/FzReader.cpp:205-217 | When one word is missing to the maximum, the same two words in one packet and in two give different events |
| Reader.DiscardHappens | src/utils/fossa.c:839-846 | Such packets exist within the receive buffer of 65000 bytes: 308 datagrams and then one or two |
| Parser.RunTraffic | src/parser/FzFSM.cpp:101-258 | The main loop itself does not touch the traffic counters |
| Parser.ChunkConserved | src/parser/FzParser.cpp:134-181 | Per chunk: good, bad and empty grow together by one exactly when it was parsed, an event is forwarded exactly when it is good or bad, and the traffic counters of the machine stay equal |
| Parser.FzParser.Receive | src/parser/FzParser.cpp:134-181 | One chunk is parsed and the event forwarded unless it is empty; over any sequence of chunks the conservation law between parser and machine counters is kept |
| Pipeline.PlainEncoding | src/parser/FzFSM.cpp:101-258 | Every well-formed event has an encoding |
| Pipeline.EncodedIsFramed | src/reader/FzReader.cpp:167-193 | An encoded event is framed the way the reader cuts |
| Pipeline.FramedEndsInRegid | src/reader/FzReader.cpp:167-193 | A framed chunk meets the assumption of the acceptance results |
| Pipeline.ParseAllMeans | src/parser/FzParser.cpp:134-181 | One machine parses any sequence of encoded events to their trees, empty ones dropped |
| Pipeline.PacketsToTrees | src/reader/FzReader.cpp:155-217 | End to end: however encoded events are cut into packets, reader and parser forward exactly their trees in order |
| Pipeline.DatagramsToTrees | src/reader/FzReader.cpp:109-217 | The same stated on headers of either form and payload words: when the payloads make up the encoded events, exactly their trees are forwarded |
| Pipeline.FillersChangeNothing | src/parser/FzFSM.cpp:118-124 | Any words 0x8000 to 0x8FFF in front of any units of an encoded event leave result, tree and counters as they are |
| Framing.UnframeFrames | src/utils/FzProtobuf.h:45-90 | Messages whose length fits in 32 bits are read back exactly when none of them is empty |
| Framing.UnframeBeforeEmpty | src/utils/FzProtobuf.h:45-90 | Reading gives the messages in front of the first empty one, each whole |
| Framing.EmptyMessageHidesRest | src/utils/FzProtobuf.h:56-58 | An empty message ends the reading, whatever follows |
| Framing.LowByteFirst | src/utils/FzProtobuf.h:83-90 | A length is written and read with its low byte first |
| Framing.ScanOfDirName | src/writer/FzWriter.cpp:160-214 | With a tag of non-digits and trailing zeros the number scanned from a directory name is the number it was made from |
| Framing.ScanExact | src/writer/FzWriter.cpp:160-214 | All directory numbers are scanned back exactly when the tag is one or more non-digits followed by nothing but zeros |
| Framing.ScanReads | src/writer/FzWriter.cpp:203-203 | The scan gives the number spelled by the digits behind one or more other characters, whatever follows |
| Framing.ScanFails | src/writer/FzWriter.cpp:203-203 | It gives nothing exactly for names without a digit and names that start with one |
| Framing.DigitInTagMisleads | src/writer/FzWriter.cpp:203-207 | With the tag E7 the directory number 1 is scanned as 7000001 |
| Writer.MaxRunidBounds | src/writer/FzWriter.cpp:192-214 | The maximum is at least the configured number and every number on disk, and it is one of them |
| Writer.ContainsExact | src/writer/FzWriter.cpp:202-202 | Only directories count whose name has the tag somewhere |
| Writer.RunidIsFresh | src/writer/FzWriter.cpp:192-214 | With such a tag it is at least the number of every run directory |
| Writer.ReadBackStored | src/utils/FzProtobuf.h:56-90 | Reading all files in order of creation gives the stored messages, none split, exactly when none is empty; otherwise of each file those in front of its first empty one |
| Writer.FzWriter.constructor | src/writer/FzWriter.cpp:9-123 | The first directory has a number above all on disk, and the first file is open |
| Writer.FzWriter.GetMaxRunid | src/writer/FzWriter.cpp:192-214 | The scan computes the maximum over the directories with the tag |
| Writer.FzWriter.SetupNewdir | src/writer/FzWriter.cpp:160-190 | The next number is taken; with a scannable tag the directory did not exist before |
| Writer.FzWriter.SetupNewfile | src/writer/FzWriter.cpp:147-158 | A new empty file in the current directory, all others as they were |
| Writer.FzWriter.WriteDataset | src/utils/FzProtobuf.h:83-90 | The last file grows by one frame |
| Writer.FzWriter.Store | src/writer/FzWriter.cpp:239-261 | A message is stored last; a new directory or a new file is made exactly when its limit is exceeded, and the sizes stay within the limits |
| Writer.FzWriter.Receive | src/writer/FzWriter.cpp:228-267 | Messages are counted while running and stored while storing is on |
| Writer.FzWriter.SetRcstate | src/writer/FzWriter.cpp:296-317 | A start after the first takes exactly one new directory when storing is on; nothing stored is lost |
| Writer.FzWriter.SetStore | src/writer/FzWriter.cpp:319-321 | Storing on or off |
| Writer.FzWriter.Process | src/writer/FzWriter.cpp:216-288 | Over any steps, the files hold exactly the messages that arrived while running with storing on and are read back exactly when none is empty; no file or directory exceeds its limit by more than one message |
| Transmitter.HeaderField | src/transmitter/main.cpp:169-197 | The twelve bytes, read big-endian, are the four Centrum values side by side |
| Transmitter.AddRecord | src/transmitter/main.cpp:167-199 | One record changes the header field as specified and nothing before it |
| Transmitter.WriteCentrum | src/transmitter/main.cpp:164-199 | Any records in any order leave the field of the records taken one by one |
| Transmitter.CentrumExact | src/transmitter/main.cpp:164-199 | For records of at most thirty bits, repeated or not, the field is the last Centrum words side by side exactly when in every bit field of a shared byte each record sets only bits that the last record of its word sets |
| Transmitter.CentrumHeader | src/transmitter/main.cpp:164-199 | In particular, with each Centrum record at most once the field is c0 (six bits), c1, c2 and c3 (thirty bits each), whatever the order |
| Transmitter.CentrumArrives | src/parser/FzFSM.cpp:1079-1112 | Seven 15-bit Centrum words decoded by the machine arrive in the field as they stood |
| Transmitter.RepeatedCentrumMixes | src/transmitter/main.cpp:169-171 | Records 1 and then 2 of the first word leave 3 |
| Transmitter.BuildFrame | src/transmitter/main.cpp:148-207 | Size bytes decode to the even-rounded frame size, length bytes to the payload size, then the payload |
| RunControl.RCFSM.TryProcess | src/rc/RCFSM.cpp:9-22 | Answers what the command would, for every command and state |
| RunControl.RCFSM.Process | src/rc/RCFSM.cpp:24-85 | Reset succeeds in every state, configure in idle and paused, start in ready and paused, stop in running, each with its target; everything else stays and reports an error |
| RunControl.StateIsLastAccepted | src/rc/RCFSM.h:26-34 | After any commands the state is decided by the last accepted one |
| RunControl.ResetRecovers | src/rc/RCFSM.h:26-34 | From any state and after any commands, accepted or not, a reset makes the machine idle and the cycle of commands can be run again |
| NodeManager.NameRoundTrip | src/nodemanager/FzNodeManager.cpp:446-472 | The name sent for a state is read as that state |
| NodeManager.FzNodeManager.RcStateDo | src/nodemanager/FzNodeManager.cpp:546-561 | Reader and parsers take the state unless the node only stores, the writer unless it only computes |
| NodeManager.FzNodeManager.RcProcess | src/nodemanager/FzNodeManager.cpp:525-581 | A local command moves manager and workers together; an accepted start takes a new directory but for the first |
| NodeManager.FzNodeManager.HandleRequest | src/nodemanager/FzNodeManager.cpp:375-515 | After every request the workers agree with the node; in remote mode its state changes exactly to one of the four named states asked for, in local mode never; the storing mode changes exactly by store and nostore; a remote start takes a new directory but for the first |
| NodeManager.FzNodeManager.Session | src/nodemanager/FzNodeManager.cpp:525-581 | Over any local commands, as many new directories as accepted starts after the first, with strictly growing numbers |
| Cluster.FzController.PushBroadcast | src/controller/rcs.cpp:206-224 | One copy of the request to every registered node |
| Cluster.FzController.HandleRequest | src/controller/rcs.cpp:86-136 | With registered nodes a reset always leads to idle, is answered OK and sends every node the name of that state; the other events do so where their transition exists and elsewhere are refused without effect; an unknown event name moves nothing and is broadcast all the same |
| Cluster.StepConsistent | src/controller/rcs.cpp:86-136 | Every step keeps: mail carries its broadcast's state, each node is where its last delivered broadcast says |
| Cluster.RunConsistent | src/controller/rcs.cpp:86-136 | Every run does |
| Cluster.NodesFollow | src/controller/rcs.cpp:206-224 | For every delivery order and loss, a node is in the state of the broadcast it took last, idle before the first, and agrees with the controller exactly when that is the state of the latest broadcast |
| Cluster.OvertakingDisagrees | src/controller/rcs.cpp:206-224 | A run in which a late broadcast leaves a node behind |
| Ecc.EccService.SoapDescribe | plugins/ganil-ecc/eccservice.py:167-178 | Only idle moves to described, and the reset is sent |
| Ecc.EccService.SoapPrepare | plugins/ganil-ecc/eccservice.py:180-191 | Only described moves to prepared, and the reset is sent |
| Ecc.EccService.SoapConfigure | plugins/ganil-ecc/eccservice.py:193-204 | Only prepared moves to ready, and the configure is sent |
| Ecc.EccService.SoapStart | plugins/ganil-ecc/eccservice.py:206-217 | Only ready moves to running, and the start is sent |
| Ecc.EccService.SoapStop | plugins/ganil-ecc/eccservice.py:219-236 | Running and paused move to ready; a running one is stopped, a paused one configured |
| Ecc.EccService.SoapPause | plugins/ganil-ecc/eccservice.py:238-249 | Only running moves to paused, and the stop is sent |
| Ecc.EccService.SoapResume | plugins/ganil-ecc/eccservice.py:251-262 | Only paused moves to running, and the start is sent |
| Ecc.EccService.SoapBreakup | plugins/ganil-ecc/eccservice.py:264-275 | Only ready moves to prepared, and the reset is sent |
| Ecc.EccService.SoapUndo | plugins/ganil-ecc/eccservice.py:277-294 | Prepared moves to described and described to idle, each with a reset |
| Ecc.CallsExact | plugins/ganil-ecc/eccservice.py:167-294 | In which states each call has an effect; it is ignored in all others |
| Ecc.WholeCycle | plugins/ganil-ecc/eccservice.py:167-294 | Every call is undone by another: up to running, paused and resumed, and down again, with the ten events sent |
| Ecc.StopWhilePaused | plugins/ganil-ecc/eccservice.py:219-275 | A stop while paused sends a configure and leads to ready |
| Ecc.CallInStep | plugins/ganil-ecc/eccservice.py:167-294 | Every call keeps service and run control in step and sends only commands the run control accepts |
| Ecc.CallsStayInStep | plugins/ganil-ecc/eccservice.py:167-294 | Every run of calls does |
| Ecc.AttemptInStep | plugins/ganil-ecc/eccservice.py:167-294 | From machines in step a call, delivered or lost, leads to machines in step exactly when its loss is not harmful |
| Ecc.InStepUnlessHarmful | plugins/ganil-ecc/eccservice.py:167-294 | Over every run of delivered and lost commands, service and run control are in step at every point exactly when no lost command is other than a reset of Describe, Prepare or Undo or the configure of a Stop while paused; in step every command is accepted |
| Ecc.LostCommandBreaksStep | plugins/ganil-ecc/eccservice.py:193-217 | A lost configure after which the start is rejected |
| Registry.FzRegistry.MapInsert | src/controller/map.cpp:3-27 | Map and deque go on listing the same keys, each once; a new key is appended whatever the size, a known one has its time renewed |
| Registry.FzRegistry.TouchDeque | src/controller/map.cpp:17-21 | The loop renews the time of that key only |
| Registry.FzRegistry.MapClean | src/controller/map.cpp:29-43 | Whenever the loop ends at all, it erases from map and deque alike, leaves the deque of the specified turns, up to 255 entries that of one pass, and changes no other report |
| Registry.TouchLeaves | src/controller/map.cpp:17-21 | The update loop with its 8-bit counter ends exactly when the deque has at most 255 entries |
| Registry.CleanLeaves | src/controller/map.cpp:33-40 | The expiry loop with its 8-bit counter ends exactly when at most 255 entries are alive, however many are expired |
| Registry.LoopHalves | src/controller/map.cpp:33-40 | However often the counter wraps round, the loop keeps all live entries in order, adds nothing and at least halves the expired ones |
| Registry.LoopIsPass | src/controller/map.cpp:33-40 | Below 256 entries the loop is one pass |
| Registry.CrowdHangs | src/controller/map.cpp:17-40 | With 256 nodes last seen ten seconds ago both loops run for ever |
| Registry.OneExpiredOfMany | src/controller/map.cpp:33-40 | With one node seen eleven seconds ago and 255 seen ten seconds ago the expiry loop ends with the 255 |
| Registry.PassHalves | src/controller/map.cpp:29-43 | A pass keeps all live entries, adds nothing and at least halves the expired ones |
| Registry.PassesHalve | src/controller/map.cpp:29-43 | n passes at one clock divide the expired entries by two to the n |
| Registry.EightPassesClear | src/controller/map.cpp:29-43 | Eight passes leave exactly the live entries |
| Coap.InsertIsStable | src/utils/fossa.c:5223-5269 | Adding an option keeps the list sorted, loses nothing and keeps the order of options with equal numbers |
| Coap.ExtendedInverse | src/utils/fossa.c:5361-5389 | Reading a split delta or length back gives its value modulo 65536 |
| Coap.OptionInverse | src/utils/fossa.c:5407-5489 | A written option is read back |
| Coap.OptionsInverse | src/utils/fossa.c:5407-5489 | Written options are read back one after another, whatever follows |
| Coap.ParsedIsComposable | src/utils/fossa.c:5506-5531 | From any bytes, a parsed message has ascending options, numbers and lengths below 65536, and can be composed |
| Coap.RoundTrip | src/utils/fossa.c:5662-5731 | The written bytes parse back to the message exactly when all option numbers and lengths are below 65536 |
| Coap.TemperatureRequest | src/utils/fossa.c:5662-5731 | The request of appendix A of RFC 7252, byte for byte, both ways |
| Coap.HeaderFailures | src/utils/fossa.c:5276-5353 | Short packets, other versions and reserved token lengths, each with its status, in this order |
| Coap.ReservedNibble | src/utils/fossa.c:5407-5489 | A reserved nibble behind any options is a format error |
| Coap.CutPacket | src/utils/fossa.c:5407-5531 | A composed packet cut anywhere: not enough data within header, token or option; between options the message with those in front; within the payload that much of it |
| Coap.LargeNumberIsLost | src/utils/fossa.c:5662-5731 | Option number 65536 is composed to seven bytes and read back as 0 |
| Coap.Recode | src/utils/fossa.c:5506-5531 | A parsed packet is composed again byte for byte exactly when no option wraps around in sixteen bits and no marker stands before an empty payload |
| Coap.WrittenWithinReserved | src/utils/fossa.c:5608-5654 | Never more is written than reserved; exactly as much when no option delta has a shorter extension than its number |
| Coap.ReservedRoundTrip | src/utils/fossa.c:5662-5731 | The reserved space, with any bytes behind the packet, parses back exactly when the sizes agree and the options fit in sixteen bits |
| Coap.SpareByteAddsOption | src/utils/fossa.c:5608-5654 | Two options 13: one byte too many is reserved, and a zero in it is read as a third option |
| CoapCodec.NsCoapMessage.AddOption | src/utils/fossa.c:5223-5269 | The list becomes the sorted insertion |
| CoapCodec.NsCoapMessage.ParseHeader | src/utils/fossa.c:5276-5333 | The header fields, or the error the packet is read as |
| CoapCodec.NsCoapMessage.GetToken | src/utils/fossa.c:5340-5354 | The token, or an error exactly when the packet ends before it |
| CoapCodec.NsCoapMessage.GetOption | src/utils/fossa.c:5418-5473 | One option is decoded and added before its end is checked |
| CoapCodec.NsCoapMessage.GetOptions | src/utils/fossa.c:5407-5489 | All options, or none and the error; and where the payload starts |
| CoapCodec.NsCoapMessage.Parse | src/utils/fossa.c:5506-5531 | Every packet is read as the decoding function says, errors included |
| CoapCodec.GetExtOpt | src/utils/fossa.c:5361-5389 | Extended deltas and lengths, with the end of the packet and the 16-bit wrap |
| CoapCodec.SplitOpt | src/utils/fossa.c:5555-5572 | Base and extension of a delta or length |
| CoapCodec.AddOptInfo | src/utils/fossa.c:5579-5601 | Writes the extension in zero, one or two bytes |
| CoapCodec.CalculatePacketSize | src/utils/fossa.c:5608-5654 | The first wrong field, or the size to reserve |
| CoapCodec.ComposeOption | src/utils/fossa.c:5698-5723 | Writes one encoded option at the pointer |
| CoapCodec.ComposeOptions | src/utils/fossa.c:5698-5723 | Writes all options as differences |
| CoapCodec.Compose | src/utils/fossa.c:5662-5731 | Appends the encoding inside the reserved space and nothing before it, or leaves the buffer alone and names the wrong field |

## Left out

- Protobuf wire format and message classes: events are trees, and the writer's messages are byte strings.
- Floating point: the rise-time scaling is an arbitrary function `scale`; the baseline is kept as an integer in sixteenths.
- Memory behind a chunk is an arbitrary function of the index, so a payload that is read past the end of a chunk gives arbitrary words instead of undefined behaviour.
- A fast energy record without a slow one has no effect here; in the source it writes an entry that does not exist.
- The text attribute of trigger information records, and counter records beyond the table of names.
- Trigger information values and lengths are unbounded where the source has 64-bit fields; the 32-bit energy words do wrap.
- Fields that the source leaves uninitialised start at zero: the accumulators, `esize`, `dsize` and `fileid`.
- The machine's fields are grouped in records, and handles are index paths, not pointers into protobuf memory.
- The machine's log output and the counters it only prints.
- Basic format: check values, sine and cosine of the ADC, `read_triggerinfo`, and the transitions around the data phase.
- FzParser: `out_bytes`, serialisation and the rates.
- Threads: each message, command or request is one atomic step.
- FzReader: recording to disk, ZeroMQ and the Mongoose event loop.
- Framing.ScanOfDirName: numbers are unbounded, while the source scans into a 32-bit `int`; the results are those of the source for numbers below 2^31.
- Framing.UnframeFrames: messages of 2^32 bytes and more, whose length the frame truncates.
- Transmitter.CentrumExact: values of more than thirty bits, which no Centrum record of the machine has.
- Printer.PrintedMeans: trees with energies, because these are scaled when they are read; trigger information from records in other hits than the first, which `Recovery.BaselineAndInfoRecovered` orders.
- FzWriter: `mkdir` failures other than an existing directory, file open errors, and limits that change while it works; `firstrun` is per process in the source and per writer here.
- FzNodeManager: node reports, performance data and the `perfdata` variable.
- FzController: unicast requests to a node, node reports, the EPICS and web interfaces.
- Cluster: the set of nodes that hear a broadcast is a parameter of each step; a node that registers later hears only later broadcasts.
- Registry: the clock does not advance during one pass.
- Ecc: replies of the service, and clients of the run control other than the service.
- Transmitter: connection handling, and events larger than its buffer.
- CoAP: options are a sequence, not a linked list; the bits that say which fields were found; header fields filled in before an error; allocation failure; sending and acknowledging.
- CoapCodec.SplitOpt: extension bytes that the source leaves unset are zero, since they are not written.
- Sockets, configuration files, logging, command lines, the EPICS plugins and the rest of the network library.

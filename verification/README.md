# A model of the device client

The client runs on a small voice device: it is set up over Bluetooth Low Energy, plays speech and
music, streams the microphone, and recognises faces. This project models the parts of it that hold
state or arithmetic of their own, and proves what they promise. Everything foreign (the core library,
sound drivers, codecs, sockets, the clock, memory) is a parameter whose answers are arbitrary.

| file | what it models |
|---|---|
| `ShiftRegister.dfy`, `Crc16.dfy` | the CRC of the BLE frames, over bits and over bytes |
| `BleFrames.dfy`, `BleReceiver.dfy`, `BleSession.dfy`, `BleSplittings.dfy` | the frame encoder, the incremental decoder over its buffer, whole sessions of writes, and when their splitting matters |
| `WifiList.dfy`, `Credentials.dfy`, `Text.dfy` | the access point list that is sent, the credentials that come back, and their escaping |
| `TtsProtocol.dfy`, `TtsPlayback.dfy`, `TtsWindow.dfy`, `TtsBoundary.dfy` | speech playback and its interruption, one step for each access to a shared variable; what is played and how soon; when exactly a packet gets past an interrupt, and an example |
| `MusicQueue.dfy`, `MusicDecoder.dfy`, `MusicProtocol.dfy`, `MusicPlayback.dfy`, `Resampler.dfy` | the music player: its queue, its decoder, its worker against calls from any thread, what it plays to the end and what ends it, its resampler |
| `VadGate.dfy`, `AudioUplink.dfy` | the amplitude gate, the preroll ring and the frame loop of the microphone uplink |
| `CaptureStash.dfy` | the growable array between driver frames and fixed-size reads |
| `FaceIndex.dfy` | the index of enrolled faces and its ring cache |
| `PendingMusic.dfy` | who owns a list of URLs that waits for speech to end |
| `Seqs.dfy`, `Options.dfy` | facts about sequences, and optional values |

Code that changes things in place is modelled by classes and methods over arrays and fields, each
proved equal to a function on values; the theorems over whole runs are about those functions. Threads
are modelled as interleaved steps, sequentially consistent; a section guarded by a mutex is one step,
except in the playback of speech, where taking and giving the mutex are steps of their own.

Where the code does less than its comments or its design suggest:

- Between writes the receive buffer holds a proper prefix of a frame, except for a single byte that
  begins no frame, or the first three bytes of a frame that will be too large (`BleReceiver.WaitsOnPrefix`).
- Splitting a stream into writes differently can change what is dispatched when a frame announces an
  impossible length (`BleSession.ResetDependsOnChunks`). The write that brings such a length loses what else
  it brings, so all splittings agree exactly when nothing that it can leave of the stream would bring or
  keep anything (`BleSplittings.SplittingsAgreeIff`). For a stream that the receive buffer can hold this is
  so exactly when the stream without its last byte announces no impossible length (`BleSplittings.ShortIsClean`).
- The parser accepts the keys `SSID` and `PSK` too, but then takes the SSID `ssid` for a key
  (`Credentials.OtherRoundTrip`).
- A packet read while an interrupt is under way, after its flush request and before its drop request,
  can be heard after the interrupt (`TtsBoundary.BoundaryPacketIsHeard`). Packets read before it cannot. This
  is possible exactly when, at the drop request, the player has a packet past its drop test, has not taken the
  mutex to write it, and neither a stop nor a flush request stands (`TtsWindow.HeardIff`); it is that packet,
  once (`TtsWindow.SlipsIff`).
- A drop request can be cleared although the transport was not found empty after it was made: exactly when the
  player had just found it empty and was about to clear an earlier request (`TtsWindow.LostIff`).
- After a play call with only blank URLs the music player can report itself active for good
  (`MusicProtocol.StuckActive`, and exactly when in `MusicProtocol.HonestUnless`).
- The preroll ring is not cleared when speech ends, so a frame can be sent in two utterances
  (`AudioUplink.SentTwice`). Whatever became of a frame in its own round, a later round sends it exactly when it
  flushes the ring, speech recognition did not complete in between, fewer frames than the ring has cells were
  recorded since, and the flush gets that far (`AudioUplink.SentLaterIff`).
- The face cache still finds a path that an upsert has removed from the index (`FaceIndex.StalePathIsFound`),
  until 64 later stores have pushed it out, and never again (`FaceIndex.FoundUntilEvicted`). Cache and index
  agree on a path exactly when it is in the index or in none of the last 64 stores (`FaceIndex.AgreeIff`).
- With an MTU above 2061 the text of the access point list can outgrow its buffer (`WifiList.SendWifiList`
  says for which lists).

## Model

| member | source | states |
|---|---|---|
| Crc16.Crc16Xmodem | ble_sdk/btgatt-server.c:176-190 | the byte loop with its eight shifts for each byte computes the CRC function of the stretch, and changes nothing |
| Crc16.CrcIsFeed | ble_sdk/btgatt-server.c:180-188 | the byte-wise CRC is the one-bit shift register fed with the bits of every byte, most significant first |
| Crc16.CrcIsRemainder | ble_sdk/btgatt-server.c:176-190 | two bytes are the CRC of a string exactly when the string with them appended is a multiple of x^16+x^12+x^5+1, as "Encoding and checking process" of ITU-T V.41 requires |
| Crc16.CodeWord | ble_sdk/btgatt-server.c:223-225 | the CRC of a string followed by two bytes is zero exactly when those are its CRC |
| Crc16.ErrorMissed | ble_sdk/btgatt-server.c:764-766 | an error added to a word with CRC zero is missed exactly when the error's own bits leave the register zero |
| ShiftRegister.ShiftInjective | ble_sdk/btgatt-server.c:183-186 | the one-bit step loses no information |
| ShiftRegister.FeedXor | ble_sdk/btgatt-server.c:180-188 | the register is linear: the sum of two strings, from the sum of two registers, ends in the sum of the results |
| ShiftRegister.ZeroIffMultiple | ble_sdk/btgatt-server.c:180-188 | a string leaves the register zero exactly when it is a multiple of the generator polynomial |
| ShiftRegister.DivideByGenerator | ble_sdk/btgatt-server.c:180-188 | long division: a string that leaves the register zero is a product with the generator, and which |
| ShiftRegister.OrderOfX | ble_sdk/btgatt-server.c:183-186 | x to the power d is 1 modulo the generator exactly when 32767 divides d |
| ShiftRegister.BurstDetected | ble_sdk/btgatt-server.c:764-766 | no nonzero burst of at most 16 bits leaves the register zero |
| ShiftRegister.TwoBitDetected | ble_sdk/btgatt-server.c:764-766 | two wrong bits are missed exactly when their distance is a multiple of 32767 |
| ShiftRegister.OddDetected | ble_sdk/btgatt-server.c:764-766 | no error of odd weight leaves the register zero |
| ShiftRegister.MultipleIsEven | ble_sdk/btgatt-server.c:183-186 | every multiple of the generator has an even number of set bits |
| BleSession.DeliversExactly | ble_sdk/btgatt-server.c:733-790 | whatever bytes are held, the decision is to deliver a command and data exactly when their encoding stands at the front |
| BleFrames.LengthValue | ble_sdk/btgatt-server.c:217-218 | the two length bytes written are the big-endian length that the decoder reads |
| BleFrames.PutFrame | ble_sdk/btgatt-server.c:215-226 | the packet buffer filled by index holds the encoded frame |
| BleFrames.SendNotify | ble_sdk/btgatt-server.c:194-246 | a frame goes out exactly when notifications are on and it fits the packet buffer and the MTU without three bytes (at least 20), and it is the encoding of command and data |
| BleReceiver.WifiLink.Consume | ble_sdk/btgatt-server.c:740 | moving the buffer down drops exactly the first bytes |
| BleReceiver.WifiLink.CheckCrc | ble_sdk/btgatt-server.c:764-766 | the comparison over the buffer is the one of the frame's CRC with the CRC of length, command and data |
| BleReceiver.WifiLink.TakeFrame | ble_sdk/btgatt-server.c:757-789 | a complete frame is removed, and dispatched exactly when its end byte and CRC are right |
| BleReceiver.WifiLink.ProcessFrames | ble_sdk/btgatt-server.c:731-791 | the loop over the buffer, changed in place, dispatches and keeps exactly what the pure parser does, and terminates |
| BleReceiver.WifiLink.WriteCb | ble_sdk/btgatt-server.c:793-817 | a write appends and parses, or resets for its offset or for overflow; the new pending bytes and the commands dispatched |
| BleReceiver.ParseAppend | ble_sdk/btgatt-server.c:731-791 | parsing a stream in two parts is parsing it at once |
| BleReceiver.RestIsShort | ble_sdk/btgatt-server.c:733-755 | what is kept between writes is at most 1023 bytes |
| BleReceiver.WaitsOnPrefix | ble_sdk/btgatt-server.c:733-755 | the loop waits exactly on proper prefixes of frames, on one stray byte, and on three bytes whose length will be too large |
| BleSession.ChunkIndependence | ble_sdk/btgatt-server.c:806-813 | without a reset, any splitting of a stream into writes dispatches the same commands and leaves the same bytes as one parse |
| BleSession.RoomForOneByte | ble_sdk/btgatt-server.c:806-813 | after any run of writes a write of one byte fits |
| BleSession.RefusedEmpties | ble_sdk/btgatt-server.c:801-813 | a write that does not begin at zero or does not fit empties the buffer |
| BleSession.ResetDependsOnChunks | ble_sdk/btgatt-server.c:747-753 | an example: two splittings of one stream that dispatch different commands |
| BleSplittings.CleanRuns | ble_sdk/btgatt-server.c:747-755 | every splitting of a clean stream into writes that fit gives what one parse gives; clean means that whatever the write with the first impossible length can leave of the stream brings and keeps nothing |
| BleSplittings.SplittingsAgreeIff | ble_sdk/btgatt-server.c:747-755 | for every stream: all splittings into writes that fit agree with one parse exactly when the stream is clean |
| BleSplittings.ShortIsClean | ble_sdk/btgatt-server.c:806-813 | a stream of at most 1024 bytes is clean exactly when it announces no impossible length before its last byte |
| BleSession.EncodeDelivers | ble_sdk/btgatt-server.c:208-226 | a frame of the encoder that fits the buffer, whatever follows it, is delivered with its command and data |
| BleSession.DamagedStep | ble_sdk/btgatt-server.c:757-772 | a frame with an error in its command, payload, CRC or end bytes is dropped exactly when the end byte changed or the error is no multiple of the generator |
| BleSession.GuaranteedErrors | ble_sdk/btgatt-server.c:757-772 | a frame with any error of two bits, of odd weight, or within 16 bits, in its command, payload or CRC is dropped, whatever follows it and whatever its end byte |
| BleSession.ParseStream | ble_sdk/btgatt-server.c:731-791 | a stream of frames, some damaged, with garbage between them gives exactly the undamaged frames' commands and payloads, in order |
| BleSession.SessionDispatches | ble_sdk/btgatt-server.c:208-226 | the same through any writes that fit: decoding undoes encoding |
| Text.ReadEscaped | ble_sdk/btgatt-server.c:332-337 | reading an escaped text up to its closing quote gives the text back, and stops at no earlier quote |
| Text.ReadDecimal | ble_sdk/btgatt-server.c:622-625 | reading a printed number gives the number back |
| Text.DecimalShort | ble_sdk/btgatt-server.c:621-625 | a C int takes at most eleven characters |
| WifiList.SortByStrength | ble_sdk/btgatt-server.c:585-593 | the exchange sort in place yields a descending permutation of the entries and touches nothing else |
| WifiList.PlaceStrongest | ble_sdk/btgatt-server.c:586-592 | its inner loop moves the strongest of the rest into place |
| WifiList.EscapeSsid | ble_sdk/btgatt-server.c:610-618 | the guarded loop into 256 bytes escapes every SSID of up to 127 bytes completely |
| WifiList.PrintEntry | ble_sdk/btgatt-server.c:609-625 | one element is never cut by its buffer of 300 bytes |
| WifiList.JsonGrows | ble_sdk/btgatt-server.c:626-627 | longer prefixes have longer texts, so the first one that does not fit ends the search |
| WifiList.PackList | ble_sdk/btgatt-server.c:605-639 | the text is that of the longest sorted prefix that fits, `[]` for none, and how many entries it has; the room left in the buffer stays nonnegative exactly when no prefix that the notification could carry has a text longer than 2049 bytes |
| WifiList.SendWifiList | ble_sdk/btgatt-server.c:581-653 | for every MTU of 16 bits: sorted, cut to the longest prefix that fits, framed and sent, as long as the buffer has room, which up to MTU 2061 it always has; up to 771 it is never rejected for its size, and above exactly when it is longer than 759 bytes; what is sent is read by the receiver as exactly those access points, strongest first |
| WifiList.ListRoundTrip | ble_sdk/btgatt-server.c:605-639 | a reader of the text finds exactly the access points that were packed, in order |
| Text.BytesAre | ble_sdk/btgatt-server.c:645-648 | the bytes sent are the characters of the text, one by one |
| WifiList.NotifiedIsRead | ble_sdk/btgatt-server.c:645-648 | when the list is sent, the receiver of the frame reads exactly the first access points packed, whatever follows the frame |
| Credentials.StrStr | ble_sdk/btgatt-server.c:284 | the search gives the first occurrence of the quoted key in the C string |
| Credentials.GetStringField | ble_sdk/btgatt-server.c:274-310 | key, colon, spaces and quotes are found as the field function says, and the value is cut to its buffer |
| Credentials.ParseWifiCredential | ble_sdk/btgatt-server.c:312-325 | both fields with their second keys; no SSID is an error, no password is an empty one |
| Credentials.FindsFirst | ble_sdk/btgatt-server.c:284-303 | in any message with two fields the first key finds the first value up to its first quote, whatever the values are |
| Credentials.FindsSecond | ble_sdk/btgatt-server.c:284-303 | after a first value without quotes and NUL bytes, the second key finds the second value up to its first quote, and so does a key that is the word of the first value |
| Credentials.FindsNothing | ble_sdk/btgatt-server.c:284-303 | any other key finds nothing, even one that is the word of the second value |
| Credentials.CredentialRoundTrip | ble_sdk/btgatt-server.c:312-325 | SSIDs of up to 63 and passwords of up to 79 bytes, without quotes and NUL bytes, come out as they went in, even the SSID `pass` |
| Credentials.SsidExact | ble_sdk/btgatt-server.c:297-308 | for any SSID: it comes out unchanged exactly when it has no quote and at most 63 bytes |
| Credentials.PassExact | ble_sdk/btgatt-server.c:297-308 | for any password after a quote-free SSID: it comes out unchanged exactly when it has no quote and at most 79 bytes |
| Credentials.ParsesOther | ble_sdk/btgatt-server.c:316-322 | with the keys `SSID` and `PSK`, what comes out: the SSID `ssid` is lost and the password taken for it |
| Credentials.OtherRoundTrip | ble_sdk/btgatt-server.c:316-322 | with those keys the round trip holds exactly when the SSID is not `ssid` or the password is `ssid` too |
| Credentials.NoPassword | ble_sdk/btgatt-server.c:320-323 | a message with an SSID alone gives it with an empty password |
| Credentials.SpacesChangeNothing | ble_sdk/btgatt-server.c:293-295 | spaces after the colon of a key change nothing |
| Credentials.SpacesAre | ble_sdk/btgatt-server.c:293-294 | the six characters that count as spaces |
| Credentials.EscapeWpaStr | ble_sdk/btgatt-server.c:327-338 | the loop into the buffer leaves what the escape function with that room says |
| Credentials.EscapeFits | ble_sdk/btgatt-server.c:332-336 | nothing is cut exactly when the escaped text and its NUL fit the buffer |
| Credentials.EscapedCredential | ble_sdk/btgatt-server.c:340-348 | SSIDs and passwords of the parser's lengths are never cut, and reading them back gives them |
| Credentials.ParsedLengths | ble_sdk/btgatt-server.c:304-308 | the parser never gives longer values than that |
| Credentials.CutShape | ble_sdk/btgatt-server.c:332-336 | a cut text is an escaped prefix, or one followed in the last place by a quote or backslash without its escape |
| Credentials.CutIff | ble_sdk/btgatt-server.c:332-336 | for every text and every buffer, what is left is the escaped form of a prefix unless the buffer ends just where a quote or a backslash needs its escape, and never then |
| Credentials.CutQuote | ble_sdk/btgatt-server.c:333-335 | in that case a quote ends the text too early, and a backslash takes the closing quote with it |
| TtsProtocol.EveryRunKeeps | src/udp_tts.c:116-340 | every step of every thread keeps mutual exclusion, what the speaker can hold, the cover of stale packets by a flush request, and the order of writes |
| TtsProtocol.InterruptSafety | src/udp_tts.c:324-340 | once an interrupt has flushed under the mutex, no packet read before it began is in the speaker, then or ever after, and none is written, even when the player's own clearing lost the flush request |
| TtsProtocol.WritesAreFresh | src/udp_tts.c:87-113 | every later write is of a packet read after all interrupts that have flushed began |
| TtsProtocol.WrittenInOrder | src/udp_tts.c:219-244 | packets reach the speaker in the order of reads, each at most once |
| TtsProtocol.DropWindow | src/udp_tts.c:195-197 | while a drop request stands, at most one packet is written, and it is the last one read before the request |
| TtsProtocol.DropBlocks | src/udp_tts.c:238-240 | if the player has no packet past its drop test when the request is made, none at all is written while it stands |
| TtsProtocol.GenerationTest | src/udp_tts.c:143-150 | with one interrupting thread, what was read goes on past the generation check exactly when the increments since the load are a multiple of 2^32 |
| TtsProtocol.QuietAfterExit | src/udp_tts.c:257-262 | when the player thread has ended, the speaker is empty and no handle is active |
| TtsPlayback.StepWanted | src/udp_tts.c:132-244 | a step loses the packet that the player holds only when a flag or a changed generation stops it or device or decoder fails; otherwise the packet is still held, or just written, and nothing else is |
| TtsPlayback.PlaysEverything | src/udp_tts.c:132-244 | in every run of all threads in which no flag meets a packet that the player holds: as many packets were written as were read, but for the one held, and the first packets read, none missing, in order |
| TtsPlayback.UndisturbedPlaysEverything | src/udp_tts.c:132-244 | the same when nobody interrupts or stops, for all answers of the transport |
| TtsPlayback.FlaggedIsNeverPlayed | src/udp_tts.c:84-90 | once a stop, a flush or a drop request that is still tested stands against the packet held, it is never written, whatever any thread does |
| TtsPlayback.WrittenSoon | src/udp_tts.c:58-113 | a packet that nothing stops is the next one written, within eighteen steps of the player |
| TtsPlayback.ReadsAgain | src/udp_tts.c:132-255 | from every reachable state the player reads again or has ended within 36 steps of its own |
| TtsPlayback.EndsWhenStopped | src/udp_tts.c:298-304 | after a stop the player thread ends within 28 steps of its own |
| TtsPlayback.PacketsAreReads | src/udp_tts.c:142-144 | the packets counted are the reads of the transport that gave one |
| TtsPlayback.UndisturbedIsHeard | src/udp_tts.c:132-255 | without interrupt or stop, and until the player gives its handle up, the packets heard and those in the speaker buffer are together the packets written, in order |
| TtsPlayback.FailedIsNeverPlayed | src/udp_tts.c:72-80 | a packet for which the device does not open, or which does not decode, is never played |
| TtsPlayback.EndedIsNotRunning | src/udp_tts.c:257-262 | a thread that has ended counts as not running |
| TtsPlayback.FlushGivesBack | src/udp_tts.c:136-140 | a flush request found at the top of a round, before a packet or before the next read gives the handle back with everything in the speaker buffer, and is cleared |
| TtsPlayback.GivesUp | src/udp_tts.c:167-172 | at the end of the idle time or of the round of speech the handle is given back, and only then |
| TtsPlayback.EmptyEndsDrop | src/udp_tts.c:157-165 | a drop request is over when the transport is found empty |
| TtsPlayback.TransportEnds | src/udp_tts.c:178-180 | when the transport has ended and is empty the player gives its handle back and ends |
| TtsPlayback.ReadsOn | src/udp_tts.c:221-231 | after a packet the player reads on at once, unless it is to end or a flush is requested |
| TtsPlayback.NoPacket | src/udp_tts.c:231-241 | a read that gives an empty packet is followed by another, one that gives none ends the burst |
| TtsPlayback.StopDoes | src/udp_tts.c:298-303 | a stop ends the running, requests a flush and withdraws the drop request |
| TtsWindow.SlipsIff | src/udp_tts.c:87-113 | a packet can be written while the drop request of an interrupt stands exactly when at the request the player has one past the drop test and is writing it or no flag stops it; nothing but that packet is written, once |
| TtsWindow.HeardIff | src/udp_tts.c:324-340 | some run writes a packet after the interrupt has returned, under its drop request, exactly when at the request the player has a packet past the drop test, has not taken the mutex to write it, and neither a stop nor a flush request stands; that packet was read after the interrupt began |
| TtsWindow.LostIff | src/udp_tts.c:158-164 | a drop request can be cleared without the transport having been found empty since, or a stop, exactly when at the request the player had just found it empty and had not yet tested or cleared |
| TtsBoundary.BoundaryPacketIsHeard | src/udp_tts.c:324-328 | an example: a run in which a packet read between an interrupt's flush request and its drop request is in the speaker after the interrupt has returned |
| MusicQueue.MusicPlayer.ClearLocked | src/music_player.c:47-62 | both lists are emptied and each node freed once, in order |
| MusicQueue.MusicPlayer.PlayUrls | src/music_player.c:569-601 | the new queue of a play call: nothing for no URLs, else a new token, the old nodes freed, and one node for each URL that is not blank |
| MusicQueue.MusicPlayer.Enqueue | src/music_player.c:577-599 | head and pending list together are the usable URLs in order; only the first URL can go to the head list |
| MusicQueue.MusicPlayer.Interrupt | src/music_player.c:607-615 | new token, nothing queued, nodes freed, not playing |
| MusicQueue.MusicPlayer.Stop | src/music_player.c:560-567 | stopped and nothing queued, nodes freed |
| MusicQueue.MusicPlayer.TakeNext | src/music_player.c:476-500 | the first item of both lists taken as one, with the current token, unless stopped |
| MusicQueue.MusicPlayer.Finish | src/music_player.c:520-533 | promotes a pending node to an empty head list and clears the playing flag, only then |
| MusicQueue.MusicPlayer.IsActive | src/music_player.c:617-623 | active when playing or when something is queued |
| MusicDecoder.Decoder.PlayPcm | src/music_player.c:335-352 | one look at the token and then, only if it allows, one write; when it fails nothing was written |
| MusicDecoder.Decoder.Open | src/music_player.c:170-186 | one look for each of at most fifty tries, none after a look that says stop; it fails only after such a look or all fifty |
| MusicDecoder.Decoder.Feed | src/music_player.c:188-273 | every write comes directly after a look that did not say stop, nothing after one that did; on success, and it succeeds when nothing fails, the bytes fed are those used followed by those kept, and every decoding that gives sound was written once |
| MusicDecoder.Decoder.DecodeAll | src/music_player.c:204-265 | every decoding that gives sound is written once, and decoding goes on until no bytes are left or used |
| MusicDecoder.Decoder.PlayPieces | src/music_player.c:420-468 | the same over a whole local file |
| MusicDecoder.Decoder.PlayStream | src/music_player.c:295-333 | the same over an HTTP stream, and it counts as interrupted exactly when the stream was told to end or the last look said stop |
| MusicDecoder.WorkerFollows | src/music_player.c:335-352 | whatever the decoder does, interleaved with any calls, the worker of the protocol does by its own steps, one write of its item for each sound |
| MusicDecoder.OneLateSound | src/music_player.c:341-350 | across opening, feeding and the play loop, and whatever other threads do: once the token has changed the decoder of the old item makes at most one more sound |
| MusicProtocol.RunKeeps | src/music_player.c:470-623 | every call and every step of the worker keeps the token tags, the active flag, the account of nodes and the order of starts |
| MusicProtocol.TakenFifo | src/music_player.c:477-496 | head and pending list act as one queue when the worker takes an item |
| MusicProtocol.PlayedInOrder | src/music_player.c:569-601 | after an undisturbed play call the items started and then those queued are exactly its non-blank URLs, in order |
| MusicProtocol.StartedInOrder | src/music_player.c:470-536 | no node starts twice, and nodes start in the order in which they were made |
| MusicProtocol.FreedExactlyOnce | src/music_player.c:47-62 | in every interleaving each node is freed once, or with the worker, or queued, and never two of these |
| MusicProtocol.HeldBelongsToToken | src/music_player.c:476-500 | the worker's item was queued by the play call that made the token it captured; the head list has at most one node |
| MusicProtocol.OneLateWrite | src/music_player.c:341-350 | after any change of the token the items of earlier play calls get at most one more write |
| MusicProtocol.StopIsFinal | src/music_player.c:560-567 | after a stop no item starts and at most one write is made |
| MusicProtocol.ActiveWhileBusy | src/music_player.c:617-623 | the player reports itself active whenever something is queued or the worker has an item of the current token |
| MusicProtocol.HonestUnless | src/music_player.c:617-623 | the playing flag stays set with nothing to do after exactly the calls that empty the queue (a stop, or a play call with no usable URL) while it is set and the worker is not busy |
| MusicProtocol.ActiveOnlyWhileBusy | src/music_player.c:617-623 | in runs without such calls the player reports itself active only while something is queued or the worker is busy |
| MusicProtocol.StuckActive | src/music_player.c:520-533 | a run with such a play call after which it stays active for good |
| MusicPlayback.NodesAre | src/music_player.c:577-599 | a play call makes one node for each usable URL, at its place among them, with its text and the gain, numbered in order |
| MusicPlayback.PlayQueues | src/music_player.c:569-601 | a play call with some URLs replaces the queue by its nodes, with no gain below zero, frees the old ones and makes a new token; one without URLs does nothing |
| MusicPlayback.PlaysItem | src/music_player.c:470-536 | the worker takes the first item, makes its writes, frees it and waits again with the rest of the queue |
| MusicPlayback.PlaysAll | src/music_player.c:470-536 | undisturbed, all that is queued is played in order, each item for as long as it lasts, all nodes are freed, and then the player is not active |
| MusicPlayback.InterruptClears | src/music_player.c:607-615 | an interrupt empties the queue and frees its nodes, makes a new token, and leaves the player inactive |
| MusicPlayback.InterruptSilences | src/music_player.c:607-615 | after an interrupt, until the next play call, nothing starts, the player is not active, and at most one more write is made |
| MusicPlayback.StopEnds | src/music_player.c:560-567 | after a stop nothing starts, at most one write is made, and the worker ends within six steps |
| MusicPlayback.StreamsIff | src/music_player.c:497-519 | the flag that lets an HTTP stream go on is set exactly while the worker has such an item of the current play call and no stop came |
| Resampler.ResampleLinear | src/music_player.c:107-143 | the number of frames, rounded up and cut to the buffer, every sample of them, and the copy for equal rates; all indices stay in bounds |
| Resampler.MixFrame | src/music_player.c:125-138 | one output frame is the mixture of its two neighbours in every channel, although the clamp is there |
| Resampler.MixBetween | src/music_player.c:134-136 | each output sample lies between its neighbours, so the clamp never changes it |
| Resampler.WithinInput | src/music_player.c:124-128 | an output frame begins before the end of the input exactly when it is below the count ceil(n * out / in) |
| Resampler.NeedSuffices | src/music_player.c:233-247 | the caller's space holds all frames |
| Resampler.LineStaysLine | src/music_player.c:129-134 | a straight line is resampled to the same line |
| Resampler.MixAtFrame | src/music_player.c:129-134 | an output frame that falls on an input frame is that frame |
| Resampler.LastRepeats | src/music_player.c:128 | output frames past the last input frame repeat it |
| Resampler.MixIsReal | src/music_player.c:129-134 | the mixture is the formula of the program over the real numbers, truncated |
| VadGate.Peak | src/audio_uplink.c:60-65 | the loudest sample: no sample is louder than the peak and some sample reaches it; the most negative sample counts as 32767 |
| VadGate.AbsIs | src/audio_uplink.c:28-36 | the absolute value in 16 bits: never above 32767, and that for the most negative sample |
| VadGate.GateFilter.Filter | src/audio_uplink.c:38-87 | the new gate, the peak, and the output: the frame when open and silence when not |
| VadGate.BelowIsTrail | src/audio_uplink.c:68-76 | while the gate is open its counter is the length of the quiet stretch at the end, below the hold count |
| VadGate.OpenIff | src/audio_uplink.c:68-80 | the gate is open exactly when some frame since the reset reached the open threshold and no later run of `hold` frames stayed below the close threshold |
| VadGate.Hysteresis | src/audio_uplink.c:53-80 | a frame that reaches either threshold keeps an open gate open; only one that reaches the open threshold opens it |
| VadGate.ClosesAfterHold | src/audio_uplink.c:68-74 | a quiet stretch closes the gate with exactly its frame number `hold`, or with the first |
| AudioUplink.RecordOrder | src/audio_uplink.c:367-375 | recording into the ring keeps the latest frames in order |
| AudioUplink.UplinkLoop.SubmitCells | src/audio_uplink.c:192-204 | a flush loop sends its cells until one fails |
| AudioUplink.UplinkLoop.FlushPreroll | src/audio_uplink.c:178-226 | the flush sends the ring oldest first, until one fails |
| AudioUplink.UplinkLoop.HandleFrame | src/audio_uplink.c:293-417 | one round of the loop changes ring, flags, gate and what was sent as the round function says, for every answer of the rest of the system |
| AudioUplink.RingHoldsLast | src/audio_uplink.c:325-375 | after any run the ring holds the last min(N, k) of the k frames recorded since speech recognition completed |
| AudioUplink.GateFollowsPeaks | src/audio_uplink.c:325-348 | after any run the gate is that of all frames since then |
| AudioUplink.RestartsIff | src/audio_uplink.c:325-339 | ring, gate and speech flag are reset at exactly those full frames where recognition is completed with the connection up and was not at the full frame before |
| AudioUplink.SpeechStartSendsPreroll | src/audio_uplink.c:377-411 | on a start of speech, when as many submissions succeed as the ring holds frames, exactly those frames go out, oldest first, the current one last |
| AudioUplink.StreamHasNoGap | src/audio_uplink.c:400-411 | while speech goes on every accepted frame is sent exactly once, in order |
| AudioUplink.UtteranceIsSent | src/audio_uplink.c:293-417 | the whole of an utterance: preroll, then every accepted frame |
| AudioUplink.RingAfter | src/audio_uplink.c:325-375 | what the ring holds after a further stretch of any run: the frames recorded in it, after as many of the earlier ones as there is room for, unless speech recognition completed |
| AudioUplink.SentAtOnceIff | src/audio_uplink.c:377-411 | in its own round a recorded frame is sent exactly when the whole ring is flushed or the stream takes it |
| AudioUplink.WithoutFlush | src/audio_uplink.c:400-411 | in a round without a flush the frame goes out exactly when speech is heard, the connection is up, recognition is not completed or speech is being played, and the submission succeeds |
| AudioUplink.SentLaterIff | src/audio_uplink.c:367-411 | whatever became of START, of a flush or of the stream in the round of a recorded frame, a later round sends the frame exactly when it flushes, speech recognition did not complete in between, fewer frames were recorded since than the ring has cells, and the flush gets as far as the frame |
| AudioUplink.FlushesRepeat | src/audio_uplink.c:367-397 | what two successive complete flushes send, and exactly when they have a frame in common |
| AudioUplink.SentTwice | src/audio_uplink.c:367-375 | an example: a run in which a frame is sent in two utterances |
| CaptureStash.AudioCapture.Reserve | src/audio_capture_rockit.c:118-137 | the array grows by doubling and keeps its samples; without memory nothing changes |
| CaptureStash.Grown | src/audio_capture_rockit.c:126-129 | the new capacity suffices and is the old one, the first one, or less than twice what is needed |
| CaptureStash.GrownLeast | src/audio_capture_rockit.c:121-130 | the capacity stays when it suffices; otherwise it, or the first one, is doubled as often as needed and not once more |
| CaptureStash.AudioCapture.TakeEvent | src/audio_capture_rockit.c:334-390 | which answers of the driver end the read, and that an accepted frame is appended with each sample twice |
| CaptureStash.AudioCapture.WaitForSamples | src/audio_capture_rockit.c:328-400 | the loop accepts frames, retries, fails or gives up after nine frames as the function says |
| CaptureStash.AudioCapture.ReadSamples | src/audio_capture_rockit.c:320-408 | a read delivers the first samples and shifts the rest, or fails and keeps everything |
| CaptureStash.DoubledAt | src/audio_capture_rockit.c:385-389 | each sample of a frame is there twice, in order |
| CaptureStash.CallsConserve | src/audio_capture_rockit.c:320-408 | over any reads, also failed ones, delivered samples and stash are exactly the accepted frames, doubled |
| CaptureStash.StashStaysSmall | src/audio_capture_rockit.c:118-137 | a bound on stash and capacity from the largest frame and the largest read |
| CaptureStash.HealthyNeverFails | src/audio_capture_rockit.c:392-400 | with a driver that makes no error, the loop of a read that nine of its smallest frames cover never fails |
| CaptureStash.ReadGives | src/audio_capture_rockit.c:320-408 | a read delivers exactly when the samples it had and the frames it accepted, doubled, cover it; then it gives the first of them and keeps the rest, and otherwise keeps all |
| CaptureStash.HealthyReads | src/audio_capture_rockit.c:392-400 | the same for a whole read |
| CaptureStash.HealthyDelivers | src/audio_capture_rockit.c:328-404 | and it delivers as soon as the driver has given enough, whatever retries lie between |
| CaptureStash.BrokenFails | src/audio_capture_rockit.c:334-366 | an error of the driver, a frame without an address or samples, or missing memory fails a read that needs samples, and nothing is lost |
| CaptureStash.FirstFrame | src/audio_capture_rockit.c:343-390 | the first frame of a read is accepted exactly when it is not empty and the array has room for it or can be enlarged |
| FaceIndex.FaceStore.CacheSet | src/face_recognition.c:512-521 | the slot at the position is overwritten and the position moves round the ring |
| FaceIndex.FaceStore.CacheGet | src/face_recognition.c:523-537 | the first used slot with the path |
| FaceIndex.FaceStore.FindName | src/face_recognition.c:573-614 | the cache first, then the first entry of the index, which is then cached |
| FaceIndex.FaceStore.Upsert | src/face_recognition.c:682-764 | the file holds the complete entries of other names in order and then the new one |
| FaceIndex.FaceStore.EnrolOwner | src/face_recognition.c:827-874 | what an enrolment changes, and when it fails without changing anything |
| FaceIndex.OthersInOrder | src/face_recognition.c:712-750 | the kept entries stay in order |
| FaceIndex.UpsertDistinct | src/face_recognition.c:682-764 | names stay distinct, and exactly the entries of other names remain |
| FaceIndex.UpsertOrder | src/face_recognition.c:750-759 | the new entry is the last one, and before it stand the complete entries of other names in their old order |
| FaceIndex.NamesStayDistinct | src/face_recognition.c:682-764 | the same over any run |
| FaceIndex.FoundIsEnrolled | src/face_recognition.c:573-614 | over any enrolments, lookups and evictions a found name is the one the path was enrolled under, cut to the 127 bytes that its buffers hold, and cache and index agree on every path still in the index |
| FaceIndex.CacheHoldsLast | src/face_recognition.c:512-521 | after any run the cache holds the last 64 slots stored by enrolments and lookups, in order |
| FaceIndex.CachedIffRecent | src/face_recognition.c:523-537 | the cache finds a path exactly when it is in one of the last 64 stores |
| FaceIndex.AgreeIff | src/face_recognition.c:573-614 | the lookup through the cache agrees with the index alone exactly for paths in the index and those in none of the last 64 stores |
| FaceIndex.FoundUntilEvicted | src/face_recognition.c:584-586 | a path that has left the index is found until 64 slots have been stored after its own, and never again |
| FaceIndex.StalePathIsFound | src/face_recognition.c:584-586 | an example: an enrolment under a known name, after which the old path is found though it is not in the index |
| PendingMusic.Session.ClearPending | src/bithion_core_compat.c:88-95 | the pending list is freed once and forgotten |
| PendingMusic.Session.QueueMusic | src/bithion_core_compat.c:375-380 | a new list replaces the pending one, which is freed |
| PendingMusic.Session.TakePending | src/bithion_core_compat.c:136-153 | the pending list changes its owner and is no longer pending |
| PendingMusic.Session.PlayOwned | src/bithion_core_compat.c:126-133 | a list is handed over when it is not empty, and freed |
| PendingMusic.StepKeeps | src/bithion_core_compat.c:370-387 | every step of every thread keeps each list in exactly one place |
| PendingMusic.AtMostOnce | src/bithion_core_compat.c:126-133 | in every interleaving each list is handed to the player at most once and freed at most once |
| PendingMusic.HandedOrDropped | src/bithion_core_compat.c:126-133 | in every interleaving a list that was freed had been handed to the player, unless it was replaced or cleared while pending; the drops make up exactly the difference |
| PendingMusic.PlayedAtOnce | src/bithion_core_compat.c:382-387 | a list that comes while speech is not busy is handed over, and freed |
| PendingMusic.DeferredIsPlayed | src/bithion_core_compat.c:375-380 | one that comes while speech is busy waits, in the place of the one before, and is handed over and freed at the end of the round |
| PendingMusic.NeverUsedAfterFree | src/bithion_core_compat.c:977-988 | no list that is pending or with a thread was freed, and no two threads have it |
| PendingMusic.NothingLeaks | src/bithion_core_compat.c:110-123 | when no thread has a list and none is pending, every list was freed |

## Left out

- BleFrames.SendNotify: takes data of at most 65533 bytes; beyond that the 16-bit length wraps. Whether the GATT layer accepts a notification is not part of the result.
- BleSession.GuaranteedErrors: errors in the two magic bytes and the two length bytes are not covered; with a damaged length the decoder looks at other bytes.
- BleReceiver.WifiLink.ProcessFrames: what the command handler does with a command (connecting, answering, the copy of at most 511 bytes of payload) is not part of this model.
- WifiList.SendWifiList: starts after the scan, with the table filled. What happens once the text has outgrown its buffer is undefined in C and not part of the result.
- TtsProtocol.GenerationTest: with several interrupting threads the increment of the counter can lose updates, so nothing is claimed about the counter then; the other theorems hold for any number of threads.
- TtsWindow.LostIff: says when a drop request can be lost; a packet read after that is played like any other.
- TtsPlayback.GivesUp: whether the speaker buffer is played to its end or dropped when the handle is given back is not told apart; the code plays it to its end there and drops it for a flush.
- TtsProtocol.InterruptSafety: the protocol is modelled on values as a step relation, with one player thread and sequential consistency; starting again after a stop, packet counters, the playing flag and the decoder's contents are not modelled.
- MusicProtocol.OneLateWrite: the worker's steps are those of looking and writing; opening, draining and flushing of the device are not told apart, and nothing is claimed about flushing after an interrupt.
- MusicDecoder.Decoder.PlayStream: fetching the stream is foreign code, which is taken to stop at the first piece that its callback refuses.
- MusicProtocol.StopIsFinal: starting the player again after a stop is not modelled; the code never clears the running flag.
- Resampler.ResampleLinear: exact fractions take the place of the double-precision position, so its rounding is not modelled.
- VadGate.GateFilter.Filter: the build without the gate, which passes everything, is not modelled.
- AudioUplink.UplinkLoop.HandleFrame: the number of preroll frames, a build constant whose definition is not part of this model, is any positive number; a read that is not a full frame is an empty one; the gain is applied outside; segment reset, flush and face activation are not modelled.
- AudioUplink.SpeechStartSendsPreroll: holds when the detector reports a start of speech only where none was going on, START is accepted and as many submissions succeed as the ring holds frames; which frames go out when one fails is in AudioUplink.UplinkLoop.FlushPreroll.
- AudioUplink.SentLaterIff: frames are told apart by their samples, so it is about runs in which no two recorded frames, nor the later frame and the recorded one, are the same; so are SentAtOnceIff and the last part of FlushesRepeat.
- CaptureStash.AudioCapture.ReadSamples: a read that waits for a driver that never answers is `Blocked` at the end of the given answers.
- FaceIndex.FoundIsEnrolled: paths are enrolled once each; names that take 256 bytes or more in the file, and paths that take 512, which the escaping buffers would cut, are excluded. The file is a list of entries; its JSON syntax is not modelled.
- PendingMusic.AtMostOnce: each URL list is one allocation; the loop that frees its strings is not modelled.
- The heart-rate and GAP services, the command prompt and the rest of the sample server: stock code.
- Sockets, processes, files, Wi-Fi start-up, the vision upload, prompt tones and volume: plumbing without state of its own.

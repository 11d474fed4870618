# BLE-MIDI bridge model

A Dafny model of a bridge that forwards the keys of a Bluetooth Low Energy MIDI controller (an AKAI LPK25 Wireless) to a local Windows MIDI output port. The model covers the three parts of the program that hold logic:

- **`Midi`** (`src/midi/mod.rs`): the three-byte `MidiMessage`. This covers its kind, note name and velocity, and the 32-bit short-message word handed to the output device (built in its own module, `ShortMessage`). It also covers choosing the output device by name, opening it and sending a message.
- **`Ble`** (`src/ble/mod.rs`): the BLE-MIDI service and characteristic UUIDs, and the first-match characteristic search over services. It also covers the target-name predicate and device discovery. Discovery lists the peripherals once per poll round, queries them in order up to the first target, stops the scan, connects and discovers services.
- **`Bridge`** (`src/bridge/mod.rs`):
  - the configuration and its checks;
  - the BLE-MIDI packet decoder, which handles the first event at offsets 2-4 and transposes note messages by whole octaves with `i8` arithmetic and a clamp to 0-127;
  - the service-then-characteristic resolution when a session starts;
  - the event loop with its consecutive-failure counter;
  - building a bridge from discovery and the output port.

`Common` holds `Option`, `Result` and the first-match search `FirstIndex` that models an iterator's `find`. `Text` holds substring search (`str::contains`) and decimal rendering and parsing of integers (`format!` of an `i32`).

Transport and output-device calls are not executed. Each becomes an input:
- The BLE transport is a `Ble.Transport` record. It gives the adapter count, the outcome of each transport call, and the sequence of poll results seen before the scan timeout.
- The output device is a result code for each open and send; 0 means success.
- The event loop runs over a given sequence of `Bridge.Event`s: notifications (with the device's result code for their send) and status checks.

Discovery and the event loop are each specified by a function (`Ble.DiscoverSpec`, `Bridge.RunFrom`). Their loops (`Ble.Scan`, `Ble.ExamineRound`, `Ble.Discover`, `Bridge.EventLoop`) are proved equal to those functions. The functions are in turn related to independent reference definitions: quiet rounds and first targets for discovery; trailing failures, delivered words and fatal events for the loop.

The code and its description differ on the octave offset. The configuration test admits offsets from -11 to 11 (`src/bridge/mod.rs:228`). The shift `octave_offset * 12` is computed in `i8` (`src/bridge/mod.rs:135`), so 11 and -11 overflow. The model follows the code: `Bridge.OctaveShift` wraps as a release build does, and `Bridge.CheckedOctaveShift` returns `None` where a debug build panics. See "## Findings".

A second difference: building a bridge reports every failure to open the output port as the port not being found, even when a device was found but refused to open (`src/bridge/mod.rs:32-42`). `Bridge.NewBridge` models exactly that.

## Model

| member | source | states |
|---|---|---|
| Common.FirstIndex | src/midi/mod.rs:81-84 | `find`: `None` exactly when no element satisfies the predicate; otherwise the index of an element that satisfies it, with every earlier element failing it |
| Text.ContainsIffOccurs | src/ble/mod.rs:45 | substring search succeeds exactly when the pattern occurs at some position of the name |
| Text.Contains | src/ble/mod.rs:45 | `str::contains`: a match implies the pattern is no longer than the text, and the empty pattern is found in every text |
| Text.NatDecimalRoundTrip | src/midi/mod.rs:43 | the decimal digits of a natural number read back as that number |
| Text.IntDecimalRoundTrip | src/midi/mod.rs:41-43 | the decimal rendering of an integer, minus sign included, reads back as that integer |
| ShortMessage.PackValue | src/midi/mod.rs:17-19 | the word is status + data1·2^8 + data2·2^16 and is below 2^24 |
| ShortMessage.UnpackPack | src/midi/mod.rs:17-19 | shifting and masking the word recovers the three bytes |
| ShortMessage.PackExample | src/midi/mod.rs:133-140 | (0x90, 0x40, 0x7F) packs to 0x7F4090 |
| Midi.MidiWordRoundTrip | src/midi/mod.rs:17-19 | the message is recovered from its short-message word |
| Midi.ToMidiWord | src/midi/mod.rs:17-19 | `to_midi_word`: the word is below 2^24 and unpacks to the status, data1 and data2 of the message |
| Midi.KindLabelInjective | src/midi/mod.rs:21-32 | distinct kinds have distinct labels, so the label string determines the kind |
| Midi.KindOnlyFromNibble | src/midi/mod.rs:21-32 | `message_type`: two messages with the same high status nibble have the same kind, and for nibble 0x90 this needs only that both or neither have velocity 0; channel and note never matter |
| Midi.LabelDeterminesKind | src/midi/mod.rs:21-32 | two messages report the same label exactly when they have the same kind |
| Midi.MessageTypeIgnoresChannel | src/midi/mod.rs:22 | replacing the channel nibble never changes the kind |
| Midi.NoteOnVelocityZeroIsNoteOff | src/midi/mod.rs:23-24 | nibble 0x90 is Note Off exactly when the velocity is 0 and Note On otherwise; nibble 0x80 is always Note Off; Note On only comes from 0x90 with a non-zero velocity |
| Midi.UnknownIffNoChannelVoiceNibble | src/midi/mod.rs:25-30 | the kind is Unknown exactly for nibble 0xF0 and nibbles below 0x80 |
| Midi.MessageTypeExamples | src/midi/mod.rs:142-159 | the nine labels of the unit-test table |
| Midi.NoteNamesArePitchClasses | src/midi/mod.rs:39 | entry c of the twelve-name table names pitch class c |
| Midi.ParseNameAndOctave | src/midi/mod.rs:42-43 | a table name followed by a decimal octave reads back as 12·(octave+1) + pitch class |
| Midi.NoteNameRoundTrip | src/midi/mod.rs:34-44 | `note_name`: the name of every note message reads back as its note number, so distinct notes get distinct names |
| Midi.MiddleCNameExample | src/midi/mod.rs:164 | note 60 is "C4" |
| Midi.SharpNameExample | src/midi/mod.rs:165 | note 61 is "C#4" |
| Midi.NaturalNameExample | src/midi/mod.rs:166 | note 62 is "D4" |
| Midi.NextOctaveNameExample | src/midi/mod.rs:167 | note 72 is "C5" |
| Midi.NoteOffNameExample | src/midi/mod.rs:168 | note 69 with status 0x80 is "A4" |
| Midi.LowestNoteNameExample | src/midi/mod.rs:41-43 | note 0 is "C-1": the octave of the lowest notes is rendered with a minus sign |
| Midi.NoteNameEmptyIff | src/midi/mod.rs:35-37 | the name is empty exactly when the raw nibble is neither 0x80 nor 0x90; a Note On with velocity 0 still gets a name; a Control Change has the empty name |
| Midi.VelocityInWord | src/midi/mod.rs:46-48 | the velocity is the byte at bits 16-23 of the word for every kind of message; (0x90, 60, 100) has velocity 100 |
| Midi.Velocity | src/midi/mod.rs:46-48 | `velocity`: the velocity is the third byte of the short-message word |
| Midi.FindDevice | src/midi/mod.rs:81-84 | no id exactly when no device name contains the target; otherwise the id of the first device whose name contains it |
| Midi.OpenOutput | src/midi/mod.rs:81-100 | fails with "no device containing" exactly when the search finds none; succeeds exactly when a device is found and the open returns 0, with that device's id; a found device that refuses to open fails with the open's own code |
| Midi.SendMessage | src/midi/mod.rs:104-116 | succeeds exactly when the device returns 0, and then hands over exactly the short-message word of the message (below 2^24, decoding to the message); otherwise fails with the device's code |
| Ble.FieldsRoundTrip | src/ble/mod.rs:12-13 | a UUID is recovered from its five 8-4-4-4-12 fields |
| Ble.MidiUuidFields | src/ble/mod.rs:12-13 | the two constants have the fields 03B80E5A-EDE8-4B33-A751-6CE34EC4C700 and 7772E5DB-3868-4112-A1A9-F2669D106BF3 |
| Ble.GetCharacteristic | src/ble/mod.rs:106-115 | returns a characteristic with the requested UUID at the first matching position in service order, then characteristic order; fails with "characteristic not found" exactly when no characteristic of any service matches |
| Ble.TargetNameIffOccurs | src/ble/mod.rs:45 | a name is a target exactly when "LPK25" or "AKAI" occurs in it |
| Ble.TargetNameExample | src/ble/mod.rs:45 | "AKAI LPK25 Wireless" is a target name |
| Ble.TargetNameInLongerName | src/ble/mod.rs:45 | a name that contains a target name is itself a target name, whatever text surrounds it |
| Ble.ExamineRound | src/ble/mod.rs:41-52 | one poll round picks the first target in list order and queries every peripheral up to it and none after |
| Ble.Scan | src/ble/mod.rs:37-60 | the poll loop equals the poll-round specification: chosen peripheral, actions and poll failure |
| Ble.Discover | src/ble/mod.rs:20-86 | discovery equals its specification in result and in the order of transport actions |
| Ble.ScanFoundIsTarget | src/ble/mod.rs:37-60 | a peripheral chosen by the polls is a target and no poll failed; every remaining round begins by listing the peripherals |
| Ble.DiscoverSpec | src/ble/mod.rs:20-86 | a successful discovery returns a target; "device not found" reports the configured timeout |
| Ble.ScanFindsFirstTarget | src/ble/mod.rs:39-56 | the polls find nothing exactly when every round lists no target; a failed poll ends them after quiet rounds; otherwise the first target of the first round listing one is chosen |
| Ble.ScanActionsOnly | src/ble/mod.rs:39-60 | the poll rounds only list, query and sleep |
| Ble.DiscoverActionOrder | src/ble/mod.rs:24-75 | no adapter exactly when the result is "no adapter", and then nothing is done; the first action starts the scan; a connection only ever follows stopping the scan; "device not found" ends with the scan stopped and never connects; success ends with stop, connect to the result, discover services |
| Ble.DiscoverChoosesFirstTarget | src/ble/mod.rs:41-70 | success connects to a target, the first of the first round listing one; "device not found" exactly when an adapter exists, the scan starts and stops, and every round is quiet |
| Bridge.WrapI8 | src/bridge/mod.rs:135 | the wrapped value is congruent to the exact one modulo 256 and equals it in the `i8` range |
| Bridge.CheckedOctaveShift | src/bridge/mod.rs:135 | the checked `i8` product exists exactly for offsets -10 to 10, and is then 12 × offset |
| Bridge.OctaveShift | src/bridge/mod.rs:135 | the release-build product is congruent to 12 × offset modulo 256, and equal to it where the checked product exists |
| Bridge.OctaveShiftExactIff | src/bridge/mod.rs:135 | the `i8` product does not overflow exactly for offsets -10 to 10, where it is exact; offset 11 wraps to -124 and offset -11 to 124 |
| Bridge.Clamp | src/bridge/mod.rs:137 | the result lies in the range, equals the input inside it and the nearer bound outside it |
| Bridge.TransposeNote | src/bridge/mod.rs:135-137 | the transposed note never exceeds 127 |
| Bridge.TransposeNoteLaw | src/bridge/mod.rs:133-138 | for offsets -10 to 10, the note becomes clamp(note + 12·offset, 0, 127) |
| Bridge.TransposeNoteExamples | src/bridge/mod.rs:231-265 | (60, +1) gives 72, (60, -1) gives 48, (60, 0) gives 60 |
| Bridge.TransposeNoteClampExamples | src/bridge/mod.rs:236-239 | (120, +1) gives 127 and (0, -1) gives 0 |
| Bridge.TransposeKeepsStatusAndVelocity | src/bridge/mod.rs:133-150 | transposition keeps the status byte, the velocity and the kind; non-note messages are unchanged |
| Bridge.Transpose | src/bridge/mod.rs:131-138 | transposition keeps the status and velocity bytes, keeps note messages note messages, leaves other messages unchanged and yields a note of at most 127 |
| Bridge.ConfigValidAdmitsWrappedShift | src/bridge/mod.rs:228 | the tested configuration check admits offset 11, whose product overflows and sends middle C to 0 instead of 127 |
| Bridge.ConfigValidExamples | src/bridge/mod.rs:192-229 | the configurations of the two configuration tests pass the check; a zero scan timeout, keep-alive or status-check interval, an offset beyond ±11, or a keep-alive no slower than the status check fails it |
| Bridge.SafeConfigTransposesExactly | src/bridge/mod.rs:135-137 | with the offset narrowed to -10..10 the product never overflows and every note moves by exactly the offset in octaves, clamped |
| Bridge.ProcessPacketCases | src/bridge/mod.rs:113-184 | under two bytes fails; two to four bytes sends nothing; five or more sends exactly the short-message word of (data[2], note, data[4]), the note being data[3] transposed for note messages and data[3] otherwise; the send fails exactly when the device refuses it |
| Bridge.ProcessPacketReadsOnlyTheFirstEvent | src/bridge/mod.rs:127-130 | two complete packets that agree on bytes 2-4 are processed alike |
| Bridge.ProcessPacket | src/bridge/mod.rs:113-184 | "packet too short" exactly for packets under two bytes; a word is sent only for packets of five or more bytes, is below 2^24 and carries the status and velocity of bytes 2 and 4 |
| Bridge.ProcessPacketExample | src/bridge/mod.rs:245-246 | [0x80, 0x80, 0x90, 60, 0x7F] one octave up sends 0x7F4890 |
| Bridge.EventLoop | src/bridge/mod.rs:81-112 | the loop over the events equals the loop specification in words sent and outcome |
| Bridge.TrailingFailuresBounded | src/bridge/mod.rs:92-99 | before any fatal event the failure count never exceeds 10 |
| Bridge.RunFromMatchesReference | src/bridge/mod.rs:83-111 | the loop from any point, entered with the true failure count, agrees with the reference definitions |
| Bridge.RunFrom | src/bridge/mod.rs:81-111 | at most one word is sent per remaining event; the loop stops only at one of the remaining events; entered with at most 10 failures it waits with at most 10 |
| Bridge.EventLoopMatchesReference | src/bridge/mod.rs:81-111 | the loop keeps going exactly when no event is fatal, with its counter equal to the failures since the last processed packet (at most 10) and every processed packet's word sent; otherwise it stops at the first fatal event with that event's error, having sent the words of the packets before it |
| Bridge.ConsecutiveFailures | src/bridge/mod.rs:92-99 | a run of failed packets is tolerated up to a count of 10 and stops the loop on the packet that makes it 11, carrying that packet's failure |
| Bridge.EleventhFailureStops | src/bridge/mod.rs:97-98 | ten short packets leave the loop waiting with count 10; the eleventh stops it |
| Bridge.ResolveMidiCharacteristic | src/bridge/mod.rs:52-64 | the result has the BLE-MIDI characteristic UUID; "service not found" exactly when no service has the BLE-MIDI service UUID; otherwise only the first such service is searched, and "characteristic not found" exactly when it holds no BLE-MIDI characteristic |
| Bridge.ResolutionSearchesOnlyTheMidiService | src/bridge/mod.rs:52-64 | a BLE-MIDI characteristic in a later service is not found, and one outside any BLE-MIDI service gives "service not found" |
| Bridge.Start | src/bridge/mod.rs:50-112 | a failed resolution, subscription or notification stream ends the session with that error and sends nothing; the keep-alive lookup always finds the characteristic; otherwise the event loop runs with the configured offset |
| Bridge.NewBridge | src/bridge/mod.rs:27-48 | discovery's actions are made; a discovery error is passed on before any output is opened; any failure to open the output is "port not found" with the configured name |

## Left out

- The Win32 multimedia calls (`midiOutGetNumDevs`, `midiOutGetDevCapsA`, `midiOutOpen`, `midiOutShortMsg`, `midiOutClose`) are foreign calls. Opening and sending are given as result codes. `list_devices` and closing the device are not part of this model; the device list is an input.
- The btleplug transport (manager, adapters, adapter info, scanning, peripherals, properties, connect, service discovery, subscribe, notifications, `is_connected`) is I/O. Each call is an outcome in `Ble.Transport`, an argument of `Bridge.Start`, or a `Bridge.Event`. Failures of `Manager::new`, `adapters()` and `adapter_info()` other than an empty adapter list are not modelled.
- Ble.Discover: timing is not modelled. The wall clock, the scan timeout and the one-second sleep between rounds become the sequence of poll rounds that begin before the timeout, with a `Sleep` action after each round without a target. Durations are whole seconds.
- The keep-alive task only has its characteristic lookup modelled (`Bridge.Start` shows it always succeeds). Its periodic reads run concurrently, cannot fail the session, and are not modelled.
- Bridge.EventLoop: the race between notifications and the status-check timer is not modelled. It is replaced by a given interleaving of events, and the end of the notification stream is the end of the sequence.
- Ble.Discover: when a properties query fails, or a peripheral has no properties or no local name, the peripheral is passed over. The model does not distinguish these cases further.
- Logging, including the note names and labels built only for log lines, has no effect on behaviour and is not modelled.
- `src/main.rs` and `src/lib.rs` (startup sequence, logger, Ctrl+C handling, module wiring) are not part of this model.
- Ble.MidiUuidFields: the UUID constants are checked through their 8-4-4-4-12 fields as numbers, not through their hyphenated text rendering.
- Bridge.Start: the packet step takes the octave offset from the configuration given to `Bridge.Start`, while the program reads the one stored when the bridge was built (`src/bridge/mod.rs:46`, `:135`). `src/main.rs` passes the same configuration to both, so no behaviour differs.
- Bridge.OctaveShift: the debug-build panic on `i8` overflow is a `None` from `Bridge.CheckedOctaveShift`; `Bridge.TransposeNote` follows the release build's wrap-around.

## Findings

| source | as written | input that shows it | evidently intended | confidence | as-written member | corrected member |
|---|---|---|---|---|---|---|
| src/bridge/mod.rs:135, src/bridge/mod.rs:228 | the offset check admits -11..11, but the shift `octave_offset * 12` is computed in `i8`, so ±11 overflows: a panic in a debug build, a wrap to ∓124 in a release build | octave offset 11, Note On of note 60: the debug build panics; the release build sends note 0 | the admitted range is exactly the offsets whose shift fits in `i8` (-10..10), so every admitted offset transposes by whole octaves without a panic or a wrap | not executed | Bridge.ConfigValidAdmitsWrappedShift | Bridge.SafeConfigTransposesExactly |

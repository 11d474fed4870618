/**
 * The bridge session: configuration, the BLE-MIDI packet decoder with octave transposition,
 * the characteristic resolution at start, the event loop with its consecutive-error policy,
 * and session construction. Transport and output-device calls are given as outcomes.
 */
module Bridge {

  import opened Common
  import opened Midi
  import Ble
  import ShortMessage

  /** A value of Rust's `i8`. */
  type I8 = x: int | -128 <= x < 128

  /** Two's-complement wrap-around into `i8`, which is what an overflowing `i8` product gives in a release build. */
  function WrapI8(x: int): (r: I8)
    ensures (r - x) % 256 == 0
    ensures -128 <= x < 128 ==> r == x
  {
    (x + 128) % 256 - 128
  }

  /** The `i8` product `octave_offset * 12` as a debug build computes it: `None` where it overflows and panics. */
  function CheckedOctaveShift(offset: I8): (r: Option<I8>)
    ensures r.Some? <==> -10 <= offset <= 10
    ensures r.Some? ==> r.value == 12 * offset
  {
    var product := offset * 12;
    if -128 <= product < 128 then Some(product) else None
  }

  /** The `i8` product `octave_offset * 12` as a release build computes it, wrapping on overflow. */
  function OctaveShift(offset: I8): (r: I8)
    ensures (r - 12 * offset) % 256 == 0
    ensures CheckedOctaveShift(offset).Some? ==> r == 12 * offset
  {
    WrapI8(offset * 12)
  }

  /** The product is exact, and a debug build does not panic, exactly for offsets -10 to 10. */
  lemma OctaveShiftExactIff(offset: I8)
    ensures CheckedOctaveShift(offset).Some? <==> -10 <= offset <= 10
    ensures -10 <= offset <= 10 ==> OctaveShift(offset) == offset * 12
    ensures offset == 11 ==> OctaveShift(offset) == -124
    ensures offset == -11 ==> OctaveShift(offset) == 124
  {
  }

  /** `i16::clamp`. */
  function Clamp(x: int, lo: int, hi: int): (r: int)
    requires lo <= hi
    ensures lo <= r <= hi
    ensures lo <= x <= hi ==> r == x
    ensures x < lo ==> r == lo
    ensures hi < x ==> r == hi
  {
    if x < lo then lo else if hi < x then hi else x
  }

  /** The transposed note number: the note plus the (wrapped) shift, clamped to the MIDI range 0-127. */
  function TransposeNote(note: bv8, offset: I8): (r: bv8)
    ensures r <= 127
  {
    Clamp(note as int + OctaveShift(offset), 0, 127) as bv8
  }

  /** Octave offsets whose shift fits in `i8`. */
  predicate SafeOffset(offset: I8)
  {
    -10 <= offset <= 10
  }

  /** For every safe offset, the note moves by whole octaves and is clamped at both ends of the MIDI range. */
  lemma TransposeNoteLaw(note: bv8, offset: I8)
    requires SafeOffset(offset)
    ensures TransposeNote(note, offset) as int == Clamp(note as int + 12 * offset, 0, 127)
  {
    OctaveShiftExactIff(offset);
    var clamped := Clamp(note as int + OctaveShift(offset), 0, 127);
    ShortMessage.ByteRoundTrip(clamped);
  }

  /** The transposition table of the unit test: middle C moved by an octave either way, and left alone. */
  lemma TransposeNoteExamples()
    ensures TransposeNote(60, 1) == 72
    ensures TransposeNote(60, -1) == 48
    ensures TransposeNote(60, 0) == 60
  {
    assert OctaveShift(1) == 12 && OctaveShift(-1) == -12 && OctaveShift(0) == 0;
  }

  /** The transposition table of the unit test: notes pushed past either end of the range are clamped. */
  lemma TransposeNoteClampExamples()
    ensures TransposeNote(120, 1) == 127
    ensures TransposeNote(0, -1) == 0
  {
    assert OctaveShift(1) == 12 && OctaveShift(-1) == -12;
  }

  /** Note messages (raw nibble 0x80 or 0x90) get their note transposed; all other messages pass unchanged. */
  function Transpose(m: MidiMessage, offset: I8): (r: MidiMessage)
    ensures r.status == m.status && r.data2 == m.data2
    ensures !IsNoteMessage(m) ==> r == m
    ensures IsNoteMessage(r) == IsNoteMessage(m)
    ensures IsNoteMessage(m) ==> r.data1 <= 127
  {
    if IsNoteMessage(m) then m.(data1 := TransposeNote(m.data1, offset)) else m
  }

  /** Transposition keeps the status byte and the velocity, and the kind of note message. */
  lemma TransposeKeepsStatusAndVelocity(m: MidiMessage, offset: I8)
    ensures Transpose(m, offset).status == m.status
    ensures Velocity(Transpose(m, offset)) == Velocity(m)
    ensures MessageType(Transpose(m, offset)) == MessageType(m)
    ensures !IsNoteMessage(m) ==> Transpose(m, offset) == m
    ensures IsNoteMessage(m) ==> Transpose(m, offset).data1 <= 127
  {
  }

  /** The bridge configuration. Durations are whole seconds, as the program sets them. */
  datatype Config = Config(
    virtualMidiPortName: string,
    bleScanTimeout: nat,
    bleKeepaliveInterval: nat,
    bleStatusCheckInterval: nat,
    octaveOffset: I8)

  /** The configuration check of the unit tests: positive durations, keep-alive slower than status checks, offset in -11..11. */
  predicate ConfigValid(c: Config)
  {
    c.bleScanTimeout > 0 && c.bleKeepaliveInterval > 0 && c.bleStatusCheckInterval > 0 &&
    c.bleKeepaliveInterval > c.bleStatusCheckInterval &&
    -11 <= c.octaveOffset <= 11
  }

  /**
   * The configurations of the unit tests pass the check; a zero duration, an offset beyond 11 octaves
   * and a keep-alive no slower than the status check do not.
   */
  lemma ConfigValidExamples(c: Config)
    ensures ConfigValid(Config("TEST_PORT", 30, 10, 1, 1)) && ConfigValid(Config("TEST_PORT", 30, 10, 1, 0))
    ensures c.octaveOffset > 11 || c.octaveOffset < -11 ==> !ConfigValid(c)
    ensures c.bleKeepaliveInterval <= c.bleStatusCheckInterval ==> !ConfigValid(c)
    ensures c.bleScanTimeout == 0 || c.bleKeepaliveInterval == 0 || c.bleStatusCheckInterval == 0 ==> !ConfigValid(c)
  {
  }

  /** The configuration check with the offset range narrowed to offsets whose shift fits in `i8`. */
  predicate SafeConfig(c: Config)
  {
    ConfigValid(c) && SafeOffset(c.octaveOffset)
  }

  /** The configuration check admits offset 11, whose shift wraps to -124: middle C goes to 0, not to 127. */
  lemma ConfigValidAdmitsWrappedShift()
    ensures var c := Config("AKAI_LPK25_IN_BLE", 30, 10, 1, 11);
      ConfigValid(c) && CheckedOctaveShift(c.octaveOffset).None? &&
      TransposeNote(60, c.octaveOffset) == 0 && Clamp(60 + 12 * c.octaveOffset, 0, 127) == 127
  {
  }

  /** Every configuration the narrowed check admits transposes by exactly its offset in octaves. */
  lemma SafeConfigTransposesExactly(c: Config, note: bv8)
    requires SafeConfig(c)
    ensures CheckedOctaveShift(c.octaveOffset) == Some(12 * c.octaveOffset)
    ensures TransposeNote(note, c.octaveOffset) as int == Clamp(note as int + 12 * c.octaveOffset, 0, 127)
  {
    TransposeNoteLaw(note, c.octaveOffset);
  }

  datatype BridgeError =
    | PacketTooShort
    | Send(cause: MidiError)
    | TooManyConsecutiveErrors(last: BridgeError)
    | UnexpectedDisconnect
    | StatusQueryFailed
    | ServiceNotFound
    | CharacteristicNotFound
    | SubscribeFailed
    | NotificationsFailed
    | Discovery(failure: Ble.BleError)
    | MidiPortNotFound(name: string)

  /**
   * One BLE-MIDI notification payload: at least the header and timestamp bytes; a complete
   * event at offsets 2, 3 and 4 is transposed and sent, and `sendCode` is the output device's
   * result code for that send. `Ok(Some(w))` means the word `w` was accepted by the device.
   */
  function ProcessPacket(data: seq<bv8>, offset: I8, sendCode: nat): (r: Result<Option<bv32>, BridgeError>)
    ensures r == Err(PacketTooShort) <==> |data| < 2
    ensures r.Ok? && r.value.Some? ==>
      |data| >= 5 && r.value.value < 0x100_0000 &&
      FromMidiWord(r.value.value).status == data[2] && FromMidiWord(r.value.value).data2 == data[4]
  {
    if |data| < 2 then Err(PacketTooShort)
    else if |data| < 5 then Ok(None)
    else
      var message := Transpose(MidiMessage(data[2], data[3], data[4]), offset);
      match SendMessage(message, sendCode)
      case Ok(word) => Ok(Some(word))
      case Err(e) => Err(Send(e))
  }

  /**
   * Packets under two bytes fail, packets of two to four bytes send nothing, and longer packets send
   * exactly one word: the status and velocity at offsets 2 and 4 unchanged, the note at offset 3
   * transposed for note messages and forwarded as is otherwise. The send fails exactly when the device refuses it.
   */
  lemma ProcessPacketCases(data: seq<bv8>, offset: I8, sendCode: nat)
    ensures |data| < 2 ==> ProcessPacket(data, offset, sendCode) == Err(PacketTooShort)
    ensures 2 <= |data| < 5 ==> ProcessPacket(data, offset, sendCode) == Ok(None)
    ensures |data| >= 5 && sendCode != 0 ==> ProcessPacket(data, offset, sendCode) == Err(Send(SendFailed(sendCode)))
    ensures |data| >= 5 && sendCode == 0 ==>
      var r := ProcessPacket(data, offset, sendCode);
      r.Ok? && r.value.Some? &&
      r.value.value == ToMidiWord(MidiMessage(
        data[2],
        if (data[2] & 0xF0) == 0x80 || (data[2] & 0xF0) == 0x90 then TransposeNote(data[3], offset) else data[3],
        data[4]))
  {
    if |data| >= 5 && sendCode == 0 {
      var m := MidiMessage(data[2], data[3], data[4]);
      MidiWordRoundTrip(Transpose(m, offset));
    }
  }

  /** Only the bytes at offsets 2, 3 and 4 of a complete packet influence what is sent. */
  lemma ProcessPacketReadsOnlyTheFirstEvent(a: seq<bv8>, b: seq<bv8>, offset: I8, sendCode: nat)
    requires |a| >= 5 && |b| >= 5 && a[2..5] == b[2..5]
    ensures ProcessPacket(a, offset, sendCode) == ProcessPacket(b, offset, sendCode)
  {
    assert a[2] == a[2..5][0] && a[3] == a[2..5][1] && a[4] == a[2..5][2];
    assert b[2] == b[2..5][0] && b[3] == b[2..5][1] && b[4] == b[2..5][2];
  }

  /** The end-to-end case: a Note On of middle C at full velocity, one octave up, sends the word of note 72. */
  lemma ProcessPacketExample()
    ensures ProcessPacket([0x80, 0x80, 0x90, 60, 0x7F], 1, 0) == Ok(Some(0x7F4890))
  {
    assert TransposeNote(60, 1) == 72;
    ShortMessage.PackExample();
    assert ToMidiWord(MidiMessage(0x90, 72, 0x7F)) == 0x7F4890;
  }

  /** The reply to a connection status check. */
  datatype LinkStatus = Connected | Disconnected | QueryFailed

  /**
   * What the event loop sees next: a notification (its characteristic UUID, its payload and the
   * output device's result code for the send it may cause) or a periodic status check.
   */
  datatype Event =
    | Notification(uuid: Ble.Uuid, value: seq<bv8>, sendCode: nat)
    | StatusCheck(status: LinkStatus)

  /** How the loop stands after the events: still waiting with its error counter, or stopped at an event with an error. */
  datatype LoopOutcome = Waiting(consecutiveErrors: nat) | Stopped(at: nat, error: BridgeError)

  /** The words sent to the output device and the outcome. */
  datatype LoopRun = LoopRun(sent: seq<bv32>, outcome: LoopOutcome)

  /** The number of consecutive packet failures after which the loop gives up is more than this. */
  const MaxConsecutiveErrors: nat := 10

  /** A notification of the BLE-MIDI characteristic; every other notification is ignored. */
  predicate IsMidiNotification(e: Event)
  {
    e.Notification? && e.uuid == Ble.MidiCharacteristicUuid
  }

  /** The words of `w`: one word or none. */
  function Words(w: Option<bv32>): seq<bv32>
  {
    if w.Some? then [w.value] else []
  }

  /**
   * The event loop from event `i` on, with `errors` consecutive failures so far: a failed packet
   * counts one more failure and stops the loop when the count exceeds the maximum; a processed packet
   * resets the count; a status check that does not report the link as connected stops the loop.
   */
  function RunFrom(events: seq<Event>, offset: I8, i: nat, errors: nat): (r: LoopRun)
    requires i <= |events|
    ensures |r.sent| <= |events| - i
    ensures r.outcome.Stopped? ==> i <= r.outcome.at < |events|
    ensures errors <= MaxConsecutiveErrors && r.outcome.Waiting? ==> r.outcome.consecutiveErrors <= MaxConsecutiveErrors
    decreases |events| - i
  {
    if i == |events| then LoopRun([], Waiting(errors))
    else
      match events[i]
      case StatusCheck(Connected) => RunFrom(events, offset, i + 1, errors)
      case StatusCheck(Disconnected) => LoopRun([], Stopped(i, UnexpectedDisconnect))
      case StatusCheck(QueryFailed) => LoopRun([], Stopped(i, StatusQueryFailed))
      case Notification(uuid, value, sendCode) =>
        if uuid != Ble.MidiCharacteristicUuid then RunFrom(events, offset, i + 1, errors)
        else
          match ProcessPacket(value, offset, sendCode)
          case Ok(word) =>
            var rest := RunFrom(events, offset, i + 1, 0);
            LoopRun(Words(word) + rest.sent, rest.outcome)
          case Err(e) =>
            if errors + 1 > MaxConsecutiveErrors then LoopRun([], Stopped(i, TooManyConsecutiveErrors(e)))
            else RunFrom(events, offset, i + 1, errors + 1)
  }

  /** The event loop over a given sequence of events, starting with no errors. */
  method EventLoop(events: seq<Event>, offset: I8) returns (sent: seq<bv32>, outcome: LoopOutcome)
    ensures LoopRun(sent, outcome) == RunFrom(events, offset, 0, 0)
  {
    sent := [];
    var consecutiveErrors := 0;
    var i := 0;
    while i < |events|
      invariant 0 <= i <= |events|
      invariant consecutiveErrors <= MaxConsecutiveErrors
      invariant var rest := RunFrom(events, offset, i, consecutiveErrors);
        RunFrom(events, offset, 0, 0) == LoopRun(sent + rest.sent, rest.outcome)
    {
      var event := events[i];
      match event {
        case StatusCheck(status) =>
          if status == Disconnected {
            return sent, Stopped(i, UnexpectedDisconnect);
          } else if status == QueryFailed {
            return sent, Stopped(i, StatusQueryFailed);
          }
        case Notification(uuid, value, sendCode) =>
          if uuid == Ble.MidiCharacteristicUuid {
            var result := ProcessPacket(value, offset, sendCode);
            if result.Ok? {
              consecutiveErrors := 0;
              assert sent + (Words(result.value) + RunFrom(events, offset, i + 1, 0).sent)
                  == sent + Words(result.value) + RunFrom(events, offset, i + 1, 0).sent;
              sent := sent + Words(result.value);
            } else {
              consecutiveErrors := consecutiveErrors + 1;
              if consecutiveErrors > MaxConsecutiveErrors {
                return sent, Stopped(i, TooManyConsecutiveErrors(result.error));
              }
            }
          }
      }
      i := i + 1;
    }
    outcome := Waiting(consecutiveErrors);
  }

  /** The result of processing a BLE-MIDI notification. */
  function PacketResult(e: Event, offset: I8): Result<Option<bv32>, BridgeError>
    requires e.Notification?
  {
    ProcessPacket(e.value, offset, e.sendCode)
  }

  /** The number of failed BLE-MIDI packets since the last processed one (or since the start). */
  function TrailingFailures(events: seq<Event>, offset: I8): nat
  {
    if |events| == 0 then 0
    else
      var last := events[|events| - 1];
      var before := TrailingFailures(events[..|events| - 1], offset);
      if !IsMidiNotification(last) then before
      else if PacketResult(last, offset).Ok? then 0
      else before + 1
  }

  /** All words the processed packets of `events` sent, in order. */
  function Delivered(events: seq<Event>, offset: I8): seq<bv32>
  {
    if |events| == 0 then []
    else
      var last := events[|events| - 1];
      var before := Delivered(events[..|events| - 1], offset);
      if IsMidiNotification(last) && PacketResult(last, offset).Ok? then before + Words(PacketResult(last, offset).value)
      else before
  }

  /**
   * Event `k` ends the session: a status check that does not report the link as connected, or a failed
   * packet that makes more than the maximum of consecutive failures.
   */
  predicate FatalAt(events: seq<Event>, offset: I8, k: nat)
    requires k < |events|
  {
    match events[k]
    case StatusCheck(status) => status != Connected
    case Notification(_, _, _) =>
      IsMidiNotification(events[k]) && PacketResult(events[k], offset).Err? &&
      TrailingFailures(events[..k + 1], offset) > MaxConsecutiveErrors
  }

  /** The error the session ends with at a fatal event; a failure count overflow carries the last failure. */
  function FatalError(e: Event, offset: I8): BridgeError
  {
    match e
    case StatusCheck(status) => if status == Disconnected then UnexpectedDisconnect else StatusQueryFailed
    case Notification(_, _, _) =>
      var r := PacketResult(e, offset);
      // A notification is only ever fatal through a failed packet, so the `else` value is never used.
      TooManyConsecutiveErrors(if r.Err? then r.error else PacketTooShort)
  }

  /** Before any fatal event the failure count never exceeds the maximum. */
  lemma {:induction false} TrailingFailuresBounded(events: seq<Event>, offset: I8, i: nat)
    requires i <= |events|
    requires forall k :: 0 <= k < i ==> !FatalAt(events, offset, k)
    ensures TrailingFailures(events[..i], offset) <= MaxConsecutiveErrors
  {
    if i > 0 {
      TrailingFailuresBounded(events, offset, i - 1);
      assert events[..i][..i - 1] == events[..i - 1];
      assert !FatalAt(events, offset, i - 1);
    }
  }

  /** The words a single event makes the loop send. */
  function StepWords(e: Event, offset: I8): seq<bv32>
  {
    if IsMidiNotification(e) && PacketResult(e, offset).Ok? then Words(PacketResult(e, offset).value) else []
  }

  /** Extending the events by one extends the reference definitions by that event's step. */
  lemma ReferenceStep(events: seq<Event>, offset: I8, i: nat)
    requires i < |events|
    ensures Delivered(events[..i + 1], offset) == Delivered(events[..i], offset) + StepWords(events[i], offset)
    ensures var before := TrailingFailures(events[..i], offset);
      TrailingFailures(events[..i + 1], offset) ==
        if !IsMidiNotification(events[i]) then before
        else if PacketResult(events[i], offset).Ok? then 0
        else before + 1
  {
    assert events[..i + 1][..i] == events[..i];
  }

  /** One loop step over an event that does not end the session, entered with the true failure count. */
  lemma RunFromStep(events: seq<Event>, offset: I8, i: nat)
    requires i < |events|
    requires TrailingFailures(events[..i], offset) <= MaxConsecutiveErrors
    requires !FatalAt(events, offset, i)
    ensures var rest := RunFrom(events, offset, i + 1, TrailingFailures(events[..i + 1], offset));
      RunFrom(events, offset, i, TrailingFailures(events[..i], offset)) ==
        LoopRun(StepWords(events[i], offset) + rest.sent, rest.outcome)
  {
    ReferenceStep(events, offset, i);
  }

  /** The loop stops at a fatal event, entered with the true failure count, with that event's error. */
  lemma RunFromFatal(events: seq<Event>, offset: I8, i: nat)
    requires i < |events|
    requires TrailingFailures(events[..i], offset) <= MaxConsecutiveErrors
    requires FatalAt(events, offset, i)
    ensures RunFrom(events, offset, i, TrailingFailures(events[..i], offset)) ==
      LoopRun([], Stopped(i, FatalError(events[i], offset)))
  {
    ReferenceStep(events, offset, i);
  }

  /** What the loop from event `i` on, entered with the true failure count, does by the reference definitions. */
  predicate AgreesFrom(events: seq<Event>, offset: I8, i: nat, run: LoopRun)
    requires i <= |events|
  {
    (run.outcome.Waiting? <==> forall k :: i <= k < |events| ==> !FatalAt(events, offset, k)) &&
    (run.outcome.Waiting? ==>
      run.outcome.consecutiveErrors == TrailingFailures(events, offset) &&
      Delivered(events[..i], offset) + run.sent == Delivered(events, offset)) &&
    (run.outcome.Stopped? ==>
      var at := run.outcome.at;
      i <= at < |events| && FatalAt(events, offset, at) && (forall k :: i <= k < at ==> !FatalAt(events, offset, k)) &&
      run.outcome.error == FatalError(events[at], offset) &&
      Delivered(events[..i], offset) + run.sent == Delivered(events[..at], offset))
  }

  /** Agreement from event `i + 1` on carries back over a step that does not end the session. */
  lemma AgreesFromStep(events: seq<Event>, offset: I8, i: nat, run: LoopRun, rest: LoopRun)
    requires i < |events| && !FatalAt(events, offset, i)
    requires Delivered(events[..i + 1], offset) == Delivered(events[..i], offset) + StepWords(events[i], offset)
    requires run == LoopRun(StepWords(events[i], offset) + rest.sent, rest.outcome)
    requires AgreesFrom(events, offset, i + 1, rest)
    ensures AgreesFrom(events, offset, i, run)
  {
    var before, step := Delivered(events[..i], offset), StepWords(events[i], offset);
    assert before + (step + rest.sent) == (before + step) + rest.sent;
  }

  /** The loop from event `i` on, entered with the true failure count, agrees with the reference definitions. */
  lemma {:induction false} RunFromMatchesReference(events: seq<Event>, offset: I8, i: nat)
    requires i <= |events|
    requires forall k :: 0 <= k < i ==> !FatalAt(events, offset, k)
    ensures AgreesFrom(events, offset, i, RunFrom(events, offset, i, TrailingFailures(events[..i], offset)))
    decreases |events| - i
  {
    if i == |events| {
      assert events[..i] == events;
    } else {
      TrailingFailuresBounded(events, offset, i);
      if FatalAt(events, offset, i) {
        RunFromFatal(events, offset, i);
      } else {
        assert forall k :: 0 <= k < i + 1 ==> !FatalAt(events, offset, k);
        RunFromMatchesReference(events, offset, i + 1);
        RunFromStep(events, offset, i);
        ReferenceStep(events, offset, i);
        var run := RunFrom(events, offset, i, TrailingFailures(events[..i], offset));
        var rest := RunFrom(events, offset, i + 1, TrailingFailures(events[..i + 1], offset));
        AgreesFromStep(events, offset, i, run, rest);
      }
    }
  }

  /**
   * The loop runs until the first fatal event: it stops there with that event's error having sent the words
   * of the packets processed before it, and with no fatal event it is still waiting, its counter equal to
   * the number of failed packets since the last processed one.
   */
  lemma EventLoopMatchesReference(events: seq<Event>, offset: I8)
    ensures var run := RunFrom(events, offset, 0, 0);
      (run.outcome.Waiting? <==> forall k :: 0 <= k < |events| ==> !FatalAt(events, offset, k)) &&
      (run.outcome.Waiting? ==>
        run.outcome.consecutiveErrors == TrailingFailures(events, offset) <= MaxConsecutiveErrors &&
        run.sent == Delivered(events, offset)) &&
      (run.outcome.Stopped? ==>
        var at := run.outcome.at;
        at < |events| && FatalAt(events, offset, at) && (forall k :: 0 <= k < at ==> !FatalAt(events, offset, k)) &&
        run.outcome.error == FatalError(events[at], offset) && run.sent == Delivered(events[..at], offset))
  {
    assert events[..0] == [];
    RunFromMatchesReference(events, offset, 0);
    if RunFrom(events, offset, 0, 0).outcome.Waiting? {
      assert events[..|events|] == events;
      TrailingFailuresBounded(events, offset, |events|);
    }
  }

  /**
   * A run of failed packets: entered with `errors` failures, the loop tolerates failures up to the maximum
   * and stops on the one that exceeds it, carrying that packet's failure.
   */
  lemma {:induction false} ConsecutiveFailures(events: seq<Event>, offset: I8, i: nat, errors: nat)
    requires i <= |events| && errors <= MaxConsecutiveErrors
    requires forall k :: i <= k < |events| ==> IsMidiNotification(events[k]) && PacketResult(events[k], offset).Err?
    ensures errors + (|events| - i) <= MaxConsecutiveErrors ==>
      RunFrom(events, offset, i, errors) == LoopRun([], Waiting(errors + (|events| - i)))
    ensures errors + (|events| - i) > MaxConsecutiveErrors ==>
      var at := i + MaxConsecutiveErrors - errors;
      at < |events| && IsMidiNotification(events[at]) &&
      RunFrom(events, offset, i, errors) ==
        LoopRun([], Stopped(at, TooManyConsecutiveErrors(PacketResult(events[at], offset).error)))
    decreases |events| - i
  {
    if i < |events| && errors < MaxConsecutiveErrors {
      ConsecutiveFailures(events, offset, i + 1, errors + 1);
    }
  }

  /** A packet shorter than the header and timestamp: it always fails. */
  const Garbled: Event := Notification(Ble.MidiCharacteristicUuid, [0x80], 0)

  /** Eleven short packets in a row stop the loop at the eleventh. */
  lemma EleventhFailureStops()
    ensures RunFrom(seq(11, _ => Garbled), 0, 0, 0) == LoopRun([], Stopped(10, TooManyConsecutiveErrors(PacketTooShort)))
    ensures RunFrom(seq(10, _ => Garbled), 0, 0, 0) == LoopRun([], Waiting(10))
  {
    ConsecutiveFailures(seq(11, _ => Garbled), 0, 0, 0);
    ConsecutiveFailures(seq(10, _ => Garbled), 0, 0, 0);
  }

  /**
   * The BLE-MIDI characteristic as the session start resolves it: the first service with the BLE-MIDI
   * service UUID, then the first of that service's characteristics with the BLE-MIDI characteristic UUID.
   */
  function ResolveMidiCharacteristic(services: seq<Ble.Service>): (r: Result<Ble.Characteristic, BridgeError>)
    ensures r.Ok? ==> r.value.uuid == Ble.MidiCharacteristicUuid
    ensures r == Err(ServiceNotFound) <==> forall i :: 0 <= i < |services| ==> services[i].uuid != Ble.MidiServiceUuid
    ensures r.Ok? || r == Err(ServiceNotFound) || r == Err(CharacteristicNotFound)
    ensures r.Ok? || r == Err(CharacteristicNotFound) ==>
      exists i :: 0 <= i < |services| && services[i].uuid == Ble.MidiServiceUuid &&
        (forall i2 :: 0 <= i2 < i ==> services[i2].uuid != Ble.MidiServiceUuid) &&
        (r.Ok? ==> r.value in services[i].characteristics) &&
        (r == Err(CharacteristicNotFound) <==>
          forall j :: 0 <= j < |services[i].characteristics| ==>
            services[i].characteristics[j].uuid != Ble.MidiCharacteristicUuid)
  {
    match FirstIndex(services, (s: Ble.Service) => s.uuid == Ble.MidiServiceUuid)
    case None => Err(ServiceNotFound)
    case Some(i) =>
      match FirstIndex(services[i].characteristics, (c: Ble.Characteristic) => c.uuid == Ble.MidiCharacteristicUuid)
      case None => Err(CharacteristicNotFound)
      case Some(j) => Ok(services[i].characteristics[j])
  }

  /** Only the first BLE-MIDI service is searched: a characteristic in a later service is not found. */
  lemma ResolutionSearchesOnlyTheMidiService()
    ensures var midi := Ble.Characteristic(Ble.MidiCharacteristicUuid, Ble.MidiServiceUuid);
      ResolveMidiCharacteristic([Ble.Service(Ble.MidiServiceUuid, []), Ble.Service(Ble.MidiServiceUuid, [midi])])
        == Err(CharacteristicNotFound)
    ensures var midi := Ble.Characteristic(Ble.MidiCharacteristicUuid, Ble.MidiServiceUuid);
      ResolveMidiCharacteristic([Ble.Service(Ble.MidiCharacteristicUuid, [midi])]) == Err(ServiceNotFound)
  {
  }

  /** How a session ends: it failed to start, or its event loop ran with the given outcome. */
  datatype Session = StartFailed(error: BridgeError) | Ran(outcome: LoopOutcome)

  /**
   * Starting a session: resolve the BLE-MIDI characteristic, subscribe to it, start the keep-alive on the
   * characteristic the whole-device lookup finds, take the notification stream and run the event loop.
   * `subscribeOk` and `notificationsOk` are the outcomes of the two transport calls.
   */
  method Start(services: seq<Ble.Service>, subscribeOk: bool, notificationsOk: bool, events: seq<Event>, config: Config)
    returns (sent: seq<bv32>, session: Session, keepAlive: Option<Ble.Characteristic>)
    ensures var resolved := ResolveMidiCharacteristic(services);
      (resolved.Err? ==> session == StartFailed(resolved.error) && sent == [] && keepAlive.None?) &&
      (resolved.Ok? && !subscribeOk ==> session == StartFailed(SubscribeFailed) && sent == [] && keepAlive.None?) &&
      (resolved.Ok? && subscribeOk ==> keepAlive.Some? && keepAlive.value.uuid == Ble.MidiCharacteristicUuid) &&
      (resolved.Ok? && subscribeOk && !notificationsOk ==> session == StartFailed(NotificationsFailed) && sent == []) &&
      (resolved.Ok? && subscribeOk && notificationsOk ==>
        session.Ran? && LoopRun(sent, session.outcome) == RunFrom(events, config.octaveOffset, 0, 0))
  {
    var resolved := ResolveMidiCharacteristic(services);
    if resolved.Err? {
      return [], StartFailed(resolved.error), None;
    }
    if !subscribeOk {
      return [], StartFailed(SubscribeFailed), None;
    }
    ghost var i :| 0 <= i < |services| && services[i].uuid == Ble.MidiServiceUuid && resolved.value in services[i].characteristics;
    ghost var j :| 0 <= j < |services[i].characteristics| && services[i].characteristics[j] == resolved.value;
    assert Ble.IsSlot(services, i, j);
    var found := Ble.GetCharacteristic(services, Ble.MidiCharacteristicUuid);
    keepAlive := Some(found.value);
    if !notificationsOk {
      return [], StartFailed(NotificationsFailed), keepAlive;
    }
    var outcome;
    sent, outcome := EventLoop(events, config.octaveOffset);
    session := Ran(outcome);
  }

  /**
   * Building a bridge: discover and connect the controller, then open the first output device whose name
   * contains the configured port name. Any failure to open the output is reported as the port not being found.
   */
  method NewBridge(t: Ble.Transport, config: Config, devices: seq<OutputDevice>, openCode: nat)
    returns (r: Result<(Ble.Peripheral, nat), BridgeError>, trace: seq<Ble.BleAction>)
    ensures var (discovered, discoveryTrace) := Ble.DiscoverSpec(t, config.bleScanTimeout);
      var output := OpenOutput(devices, config.virtualMidiPortName, openCode);
      trace == discoveryTrace &&
      (discovered.Err? ==> r == Err(Discovery(discovered.error))) &&
      (discovered.Ok? && output.Ok? ==> r == Ok((discovered.value, output.value))) &&
      (discovered.Ok? && output.Err? ==> r == Err(MidiPortNotFound(config.virtualMidiPortName)))
  {
    var discovered;
    discovered, trace := Ble.Discover(t, config.bleScanTimeout);
    if discovered.Err? {
      return Err(Discovery(discovered.error)), trace;
    }
    var output := OpenOutput(devices, config.virtualMidiPortName, openCode);
    if output.Err? {
      return Err(MidiPortNotFound(config.virtualMidiPortName)), trace;
    }
    return Ok((discovered.value, output.value)), trace;
  }
}

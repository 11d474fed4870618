/**
 * The MIDI message value of the bridge: one three-byte channel-voice event, its kind,
 * its note name, its velocity, and the 32-bit short-message word handed to the local
 * output device. Also the choice of the output device by name.
 */
module Midi {

  import opened Common
  import opened Text
  import ShortMessage

  /** One MIDI event: the status byte (kind in the high nibble, channel in the low one) and two data bytes. */
  datatype MidiMessage = MidiMessage(status: bv8, data1: bv8, data2: bv8)

  /** The high nibble of the status byte, which selects how the data bytes are read. */
  function KindNibble(m: MidiMessage): bv8
  {
    m.status & 0xF0
  }

  /**
   * The short-message word: status in the low byte, then data1, then data2. The top byte stays
   * clear and the message can be read back from the word.
   */
  function ToMidiWord(m: MidiMessage): (w: bv32)
    ensures w < 0x100_0000
    ensures ShortMessage.Unpack(w) == (m.status, m.data1, m.data2)
  {
    ShortMessage.PackValue(m.status, m.data1, m.data2);
    ShortMessage.UnpackPack(m.status, m.data1, m.data2);
    ShortMessage.Pack(m.status, m.data1, m.data2)
  }

  function FromMidiWord(w: bv32): MidiMessage
  {
    var (status, data1, data2) := ShortMessage.Unpack(w);
    MidiMessage(status, data1, data2)
  }

  lemma MidiWordRoundTrip(m: MidiMessage)
    ensures FromMidiWord(ToMidiWord(m)) == m
  {
  }

  /** Message kinds, named by the labels the source reports. */
  datatype MessageKind =
    | NoteOff
    | NoteOn
    | PolyphonicKeyPressure
    | ControlChange
    | ProgramChange
    | ChannelPressure
    | PitchBend
    | Unknown

  function KindLabel(k: MessageKind): string
  {
    match k
    case NoteOff => "Note Off"
    case NoteOn => "Note On"
    case PolyphonicKeyPressure => "Polyphonic Key Pressure"
    case ControlChange => "Control Change"
    case ProgramChange => "Program Change"
    case ChannelPressure => "Channel Pressure"
    case PitchBend => "Pitch Bend"
    case Unknown => "Unknown"
  }

  /** The kind of a message; a Note On with velocity 0 is a Note Off. */
  function MessageType(m: MidiMessage): MessageKind
  {
    match KindNibble(m)
    case 0x80 => NoteOff
    case 0x90 => if m.data2 == 0 then NoteOff else NoteOn
    case 0xA0 => PolyphonicKeyPressure
    case 0xB0 => ControlChange
    case 0xC0 => ProgramChange
    case 0xD0 => ChannelPressure
    case 0xE0 => PitchBend
    case _ => Unknown
  }

  /** The label `message_type` returns. */
  function MessageTypeLabel(m: MidiMessage): string
  {
    KindLabel(MessageType(m))
  }

  /** Different kinds have different labels, so the labels carry exactly the kind. */
  lemma KindLabelInjective(k1: MessageKind, k2: MessageKind)
    ensures KindLabel(k1) == KindLabel(k2) ==> k1 == k2
  {
    if KindLabel(k1) == KindLabel(k2) {
      var l := KindLabel(k1);
      assert l[0] == KindLabel(k2)[0] && |l| == |KindLabel(k2)|;
      if |l| > 6 && l[..6] == "Note O" {
        assert l[6] == KindLabel(k2)[6];
      }
      if |l| > 1 && l[0] == 'P' {
        assert l[1] == KindLabel(k2)[1];
      }
      if |l| > 1 && l[0] == 'C' {
        assert l[1] == KindLabel(k2)[1];
      }
    }
  }

  /** Equal labels mean equal kinds and conversely: the label a message reports identifies its kind. */
  lemma LabelDeterminesKind(m1: MidiMessage, m2: MidiMessage)
    ensures MessageTypeLabel(m1) == MessageTypeLabel(m2) <==> MessageType(m1) == MessageType(m2)
  {
    KindLabelInjective(MessageType(m1), MessageType(m2));
  }

  /**
   * The kind depends on the high nibble of the status byte alone, and for nibble 0x90 also on
   * whether the velocity is 0: neither the channel, nor the note, nor any other velocity matters.
   */
  lemma KindOnlyFromNibble(m1: MidiMessage, m2: MidiMessage)
    requires KindNibble(m1) == KindNibble(m2)
    requires KindNibble(m1) == 0x90 ==> (m1.data2 == 0 <==> m2.data2 == 0)
    ensures MessageType(m1) == MessageType(m2)
  {
  }

  /** The channel (low nibble of the status byte) never changes the kind. */
  lemma MessageTypeIgnoresChannel(m: MidiMessage, channel: bv8)
    requires channel < 0x10
    ensures MessageType(m.(status := KindNibble(m) | channel)) == MessageType(m)
  {
    assert KindNibble(m.(status := KindNibble(m) | channel)) == KindNibble(m);
  }

  /** Nibble 0x90 is a Note Off exactly when the velocity is 0; nibble 0x80 is always a Note Off. */
  lemma NoteOnVelocityZeroIsNoteOff(m: MidiMessage)
    ensures KindNibble(m) == 0x90 ==> (MessageType(m) == NoteOff <==> m.data2 == 0)
    ensures KindNibble(m) == 0x90 ==> (MessageType(m) == NoteOn <==> m.data2 != 0)
    ensures KindNibble(m) == 0x80 ==> MessageType(m) == NoteOff
    ensures MessageType(m) == NoteOn ==> KindNibble(m) == 0x90 && m.data2 != 0
  {
  }

  /** Only the system nibble 0xF0 and the nibbles below 0x80 (data bytes in status position) are unknown. */
  lemma UnknownIffNoChannelVoiceNibble(m: MidiMessage)
    ensures MessageType(m) == Unknown <==> KindNibble(m) < 0x80 || KindNibble(m) == 0xF0
  {
  }

  /** The label table of the unit test. */
  lemma MessageTypeExamples()
    ensures MessageTypeLabel(MidiMessage(0x80, 0, 0)) == "Note Off"
    ensures MessageTypeLabel(MidiMessage(0x90, 0, 64)) == "Note On"
    ensures MessageTypeLabel(MidiMessage(0x90, 0, 0)) == "Note Off"
    ensures MessageTypeLabel(MidiMessage(0xA0, 0, 0)) == "Polyphonic Key Pressure"
    ensures MessageTypeLabel(MidiMessage(0xB0, 0, 0)) == "Control Change"
    ensures MessageTypeLabel(MidiMessage(0xC0, 0, 0)) == "Program Change"
    ensures MessageTypeLabel(MidiMessage(0xD0, 0, 0)) == "Channel Pressure"
    ensures MessageTypeLabel(MidiMessage(0xE0, 0, 0)) == "Pitch Bend"
    ensures MessageTypeLabel(MidiMessage(0xF0, 0, 0)) == "Unknown"
  {
  }

  /** The twelve pitch-class names, starting at C. */
  const NoteNames: seq<string> := ["C", "C#", "D", "D#", "E", "F", "F#", "G", "G#", "A", "A#", "B"]

  /** A note message: the raw nibble is 0x80 or 0x90 (a Note On with velocity 0 included). */
  predicate IsNoteMessage(m: MidiMessage)
  {
    KindNibble(m) == 0x80 || KindNibble(m) == 0x90
  }

  /** The note name, pitch class then octave, with note 60 in octave 4; empty for other messages. */
  function NoteName(m: MidiMessage): string
  {
    if !IsNoteMessage(m) then ""
    else
      var n := m.data1 as int;
      NoteNames[n % 12] + IntToDecimal(n / 12 - 1)
  }

  /** The name of a note is empty exactly for messages whose raw nibble is not a note nibble. */
  lemma NoteNameEmptyIff(m: MidiMessage)
    ensures NoteName(m) == "" <==> !IsNoteMessage(m)
    ensures KindNibble(m) == 0x90 && m.data2 == 0 ==> NoteName(m) != ""
    ensures NoteName(MidiMessage(0xB0, 60, 64)) == ""
  {
  }

  /** The pitch class of a natural-note letter of the C major scale. */
  function LetterPitch(c: char): Option<nat>
  {
    match c
    case 'C' => Some(0)
    case 'D' => Some(2)
    case 'E' => Some(4)
    case 'F' => Some(5)
    case 'G' => Some(7)
    case 'A' => Some(9)
    case 'B' => Some(11)
    case _ => None
  }

  /** The pitch class of a name: a letter, raised by a semitone when followed by '#'. */
  function PitchOf(name: string): Option<nat>
  {
    if |name| == 1 then LetterPitch(name[0])
    else if |name| == 2 && name[1] == '#' && LetterPitch(name[0]).Some? then Some(LetterPitch(name[0]).value + 1)
    else None
  }

  /** Every entry of the naming table names its own pitch class. */
  lemma NoteNamesArePitchClasses()
    ensures forall c :: 0 <= c < 12 ==> PitchOf(NoteNames[c]) == Some(c)
  {
    forall c | 0 <= c < 12
      ensures PitchOf(NoteNames[c]) == Some(c)
    {
      if |NoteNames[c]| == 2 {
        assert NoteNames[c][1] == '#' && LetterPitch(NoteNames[c][0]) == Some(c - 1);
      } else {
        assert LetterPitch(NoteNames[c][0]) == Some(c);
      }
    }
  }

  /** Reads a note name back: the pitch class (one letter, optionally '#') and a decimal octave. */
  function ParseNoteName(s: string): Option<int>
  {
    var split := if |s| >= 2 && s[1] == '#' then 2 else 1;
    if |s| < split then None
    else
      match (PitchOf(s[..split]), DecimalToInt(s[split..]))
      case (Some(pitch), Some(octave)) => Some((octave + 1) * 12 + pitch)
      case _ => None
  }

  /** A pitch-class name followed by text that does not start with '#' is split right after the name. */
  lemma ParseAfterPitch(pitch: string, rest: string)
    requires PitchOf(pitch).Some? && |rest| >= 1 && rest[0] != '#'
    ensures ParseNoteName(pitch + rest) ==
      if DecimalToInt(rest).Some? then Some((DecimalToInt(rest).value + 1) * 12 + PitchOf(pitch).value) else None
  {
    var s := pitch + rest;
    var split := if |s| >= 2 && s[1] == '#' then 2 else 1;
    assert split == |pitch| by {
      if |pitch| == 1 {
        assert s[1] == rest[0];
      }
    }
    assert s[..split] == pitch;
    assert s[split..] == rest;
  }

  /** A table name followed by a decimal octave reads back as the note it names. */
  lemma ParseNameAndOctave(c: nat, octave: int)
    requires c < 12
    ensures ParseNoteName(NoteNames[c] + IntToDecimal(octave)) == Some((octave + 1) * 12 + c)
  {
    NoteNamesArePitchClasses();
    IntDecimalRoundTrip(octave);
    ParseAfterPitch(NoteNames[c], IntToDecimal(octave));
  }

  /** The name of every note message reads back as its note number: distinct notes get distinct names. */
  lemma NoteNameRoundTrip(m: MidiMessage)
    requires IsNoteMessage(m)
    ensures ParseNoteName(NoteName(m)) == Some(m.data1 as int)
  {
    var n := m.data1 as int;
    var c, octave := n % 12, n / 12 - 1;
    assert NoteName(m) == NoteNames[c] + IntToDecimal(octave);
    ParseNameAndOctave(c, octave);
    assert (octave + 1) * 12 + c == n;
  }

  /** The naming table of the unit test: middle C is "C4". */
  lemma MiddleCNameExample()
    ensures NoteName(MidiMessage(0x90, 60, 64)) == "C4"
  {
    assert IntToDecimal(4) == "4";
  }

  /** The naming table of the unit test: the black key above middle C is "C#4". */
  lemma SharpNameExample()
    ensures NoteName(MidiMessage(0x90, 61, 64)) == "C#4"
  {
    assert IntToDecimal(4) == "4";
  }

  /** The naming table of the unit test: D above middle C is "D4". */
  lemma NaturalNameExample()
    ensures NoteName(MidiMessage(0x90, 62, 64)) == "D4"
  {
    assert IntToDecimal(4) == "4";
  }

  /** The naming table of the unit test: a Note Off is named like a Note On, A above middle C is "A4". */
  lemma NoteOffNameExample()
    ensures NoteName(MidiMessage(0x80, 69, 64)) == "A4"
  {
    assert IntToDecimal(4) == "4";
  }

  /** The naming table of the unit test: the C an octave above middle C is "C5". */
  lemma NextOctaveNameExample()
    ensures NoteName(MidiMessage(0x90, 72, 64)) == "C5"
  {
    assert IntToDecimal(5) == "5";
  }

  /** The lowest note is in octave -1. */
  lemma LowestNoteNameExample()
    ensures NoteName(MidiMessage(0x90, 0, 64)) == "C-1"
  {
    assert IntToDecimal(-1) == "-" + "1";
  }

  /** The velocity byte, for every kind of message: the third byte of the short-message word. */
  function Velocity(m: MidiMessage): (v: bv8)
    ensures v == ShortMessage.Unpack(ToMidiWord(m)).2
  {
    m.data2
  }

  /** The velocity is the byte at bits 16-23 of the short-message word, whatever the kind of message. */
  lemma VelocityInWord(m: MidiMessage)
    ensures Velocity(m) == ((ToMidiWord(m) >> 16) & 0xFF) as bv8
    ensures Velocity(MidiMessage(0x90, 60, 100)) == 100
  {
    ShortMessage.UnpackPack(m.status, m.data1, m.data2);
  }

  /** An output device as the device listing reports it: its device id and its name. */
  datatype OutputDevice = OutputDevice(id: nat, name: string)

  /** The id of the first listed device whose name contains `target`. */
  function FindDevice(devices: seq<OutputDevice>, target: string): (r: Option<nat>)
    ensures r.None? <==> forall k :: 0 <= k < |devices| ==> !Contains(devices[k].name, target)
    ensures r.Some? ==>
      exists k :: 0 <= k < |devices| && devices[k].id == r.value && Contains(devices[k].name, target) &&
        forall j :: 0 <= j < k ==> !Contains(devices[j].name, target)
  {
    match FirstIndex(devices, (d: OutputDevice) => Contains(d.name, target))
    case None => None
    case Some(k) => Some(devices[k].id)
  }

  datatype MidiError =
    | NoDeviceContaining(target: string)
    | OpenFailed(code: nat)
    | SendFailed(code: nat)

  /**
   * Opening the output by name: the first device whose name contains `target` is opened;
   * `openCode` is the result code the device layer returns for that open (0 is success).
   */
  function OpenOutput(devices: seq<OutputDevice>, target: string, openCode: nat): (r: Result<nat, MidiError>)
    ensures r == Err(NoDeviceContaining(target)) <==> FindDevice(devices, target).None?
    ensures r.Ok? <==> FindDevice(devices, target).Some? && openCode == 0
    ensures r.Ok? ==> Some(r.value) == FindDevice(devices, target)
    ensures FindDevice(devices, target).Some? && openCode != 0 ==> r == Err(OpenFailed(openCode))
  {
    match FindDevice(devices, target)
    case None => Err(NoDeviceContaining(target))
    case Some(id) => if openCode == 0 then Ok(id) else Err(OpenFailed(openCode))
  }

  /**
   * Sending a message: the device accepts the short-message word when its result code is 0.
   * On success the result is the word that was handed to the device.
   */
  function SendMessage(m: MidiMessage, sendCode: nat): (r: Result<bv32, MidiError>)
    ensures r.Ok? <==> sendCode == 0
    ensures r.Ok? ==> r.value == ToMidiWord(m) && r.value < 0x100_0000 && FromMidiWord(r.value) == m
    ensures r.Err? ==> r.error == SendFailed(sendCode)
  {
    MidiWordRoundTrip(m);
    if sendCode == 0 then Ok(ToMidiWord(m)) else Err(SendFailed(sendCode))
  }
}

/**
 * Raw MIDI bytes as the program sees them, the three constants it uses,
 * and an independent reading of the Channel Voice "Note Off" / "Note On"
 * messages of the MIDI 1.0 Detailed Specification, against which the
 * program's own byte tests are compared.
 */
module Midi {

  import opened Wrappers

  /** A Rust `u8`. */
  type byte = x: int | 0 <= x < 256

  /** A raw message, as handed to the input callback or to `send`. */
  type Message = seq<byte>

  const NoteOnStatus: byte := 0x90
  const NoteOffStatus: byte := 0x80
  /** The fixed velocity of every note the program plays. */
  const Velocity: byte := 0x40

  /** A MIDI 1.0 data byte has its top bit clear. */
  predicate IsDataByte(b: byte) {
    b < 0x80
  }

  /** The two Channel Voice messages the game cares about; `channel` is 0-based. */
  datatype NoteEvent =
    | NoteOff(channel: nat, key: byte, velocity: byte)
    | NoteOn(channel: nat, key: byte, velocity: byte)
  {
    predicate Valid() {
      channel < 16 && IsDataByte(key) && IsDataByte(velocity)
    }
  }

  /**
   * Reads a complete message as a note event: status `8nH` is Note Off and
   * `9nH` Note On on channel `n`, each followed by two data bytes.
   */
  function Decode(msg: Message): (e: Option<NoteEvent>)
    ensures e.Some? ==> e.value.Valid()
  {
    if |msg| != 3 || !IsDataByte(msg[1]) || !IsDataByte(msg[2]) then None
    else if msg[0] / 16 == 0x8 then Some(NoteOff(msg[0] % 16, msg[1], msg[2]))
    else if msg[0] / 16 == 0x9 then Some(NoteOn(msg[0] % 16, msg[1], msg[2]))
    else None
  }

  /** The bytes of a note event. */
  function Encode(e: NoteEvent): Message
    requires e.Valid()
  {
    match e
    case NoteOff(ch, k, v) => [0x80 + ch, k, v]
    case NoteOn(ch, k, v) => [0x90 + ch, k, v]
  }

  lemma DecodeEncode(e: NoteEvent)
    requires e.Valid()
    ensures Decode(Encode(e)) == Some(e)
  {
  }

  lemma EncodeDecode(msg: Message)
    requires Decode(msg).Some?
    ensures Encode(Decode(msg).value) == msg
  {
    assert msg == [msg[0], msg[1], msg[2]];
  }
}

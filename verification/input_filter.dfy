/**
 * The input callback: every raw message from the input port passes
 * through `Forward`, and only the note byte of a plain note message is
 * pushed into the channel.
 */
module InputFilter {

  import opened Wrappers
  import opened Midi

  /**
   * The callback's test: three bytes, status exactly Note On or Note Off of
   * the first channel, non-zero velocity; the pushed value is the note byte.
   */
  function Forward(msg: Message): Option<byte> {
    if |msg| == 3 && (msg[0] == NoteOnStatus || msg[0] == NoteOffStatus) && msg[2] != 0
    then Some(msg[1])
    else None
  }

  /** The notes the callback pushes for a run of raw messages, in arrival order. */
  function ForwardAll(msgs: seq<Message>): (pushed: seq<byte>)
    ensures |pushed| <= |msgs|
    ensures forall n :: n in pushed ==> exists m :: m in msgs && Forward(m) == Some(n)
  {
    if |msgs| == 0 then []
    else
      var rest := ForwardAll(msgs[1..]);
      assert forall m :: m in msgs[1..] ==> m in msgs;
      match Forward(msgs[0])
      case Some(n) => [n] + rest
      case None => rest
  }

  /**
   * Against the MIDI 1.0 reading: a well-formed Note On or Note Off is
   * forwarded exactly when it is on the first channel and has a non-zero
   * velocity, and then its key is what is pushed.
   */
  lemma ForwardsFirstChannelNotes(e: NoteEvent)
    requires e.Valid()
    ensures Forward(Encode(e)) == if e.channel == 0 && e.velocity != 0 then Some(e.key) else None
  {
  }

  /**
   * Conversely, whatever is forwarded with proper data bytes is a first-channel
   * Note On or Note Off with non-zero velocity, and its key is the value pushed.
   */
  lemma ForwardedIsFirstChannelNote(msg: Message)
    requires Forward(msg).Some? && IsDataByte(msg[1]) && IsDataByte(msg[2])
    ensures Decode(msg).Some?
    ensures Decode(msg).value.channel == 0
    ensures Decode(msg).value.velocity != 0
    ensures Decode(msg).value.key == Forward(msg).value
  {
  }

  /** A Note On with velocity 0, which MIDI 1.0 treats as a Note Off, is dropped. */
  lemma DropsSilentNoteOn(channel: nat, key: byte)
    requires channel < 16 && IsDataByte(key)
    ensures Forward(Encode(NoteOn(channel, key, 0))) == None
  {
  }

  /** Note messages on channels 2 to 16 are dropped. */
  lemma DropsOtherChannels(e: NoteEvent)
    requires e.Valid() && e.channel != 0
    ensures Forward(Encode(e)) == None
  {
  }

  /** Data bytes are not checked: a note byte above 127 is forwarded as it is. */
  lemma ForwardsHighNoteByte()
    ensures Forward([NoteOnStatus, 200, 1]) == Some(200)
    ensures Decode([NoteOnStatus, 200, 1]) == None
  {
  }

  /** Forwarding a concatenation forwards each part in turn. */
  lemma {:induction false} ForwardAllAppend(a: seq<Message>, b: seq<Message>)
    ensures ForwardAll(a + b) == ForwardAll(a) + ForwardAll(b)
  {
    if |a| > 0 {
      assert (a + b)[1..] == a[1..] + b;
      ForwardAllAppend(a[1..], b);
    } else {
      assert a + b == b;
    }
  }
}

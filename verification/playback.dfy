/**
 * The playback of the target note: a Note On, the hold, and the matching
 * Note Off, sent to an output port that may stop accepting messages.
 */
module Playback {

  import opened Wrappers
  import opened Failures
  import opened Midi

  /**
   * The output port: the messages it has taken so far, and the index of
   * the first send that fails (a disconnected port stays disconnected).
   */
  datatype Output = Output(sent: seq<Message>, failFrom: Option<nat>) {

    /** Whether the next send goes through. */
    predicate Accepts() {
      failFrom.None? || |sent| < failFrom.value
    }
  }

  /** One `send`; a failure aborts with the program's "cannot play note". */
  function Send(out: Output, msg: Message): (r: Result<Output, Failure>)
    ensures r.Ok? <==> out.Accepts()
    ensures r.Ok? ==> r.value == out.(sent := out.sent + [msg])
    ensures r.Err? ==> r.error == CannotPlayNote
  {
    if out.Accepts() then Ok(out.(sent := out.sent + [msg])) else Err(CannotPlayNote)
  }

  function NoteOnMessage(target: byte): Message {
    [NoteOnStatus, target, Velocity]
  }

  function NoteOffMessage(target: byte): Message {
    [NoteOffStatus, target, Velocity]
  }

  /** The messages of one playback of `target`. */
  function PlayedMessages(target: byte): seq<Message> {
    [NoteOnMessage(target), NoteOffMessage(target)]
  }

  /** Whether the port takes the two sends of a playback. */
  predicate TakesTwoMore(out: Output) {
    out.failFrom.None? || |out.sent| + 2 <= out.failFrom.value
  }

  /**
   * One playback: Note On, then (after the hold, which has no logical
   * content) Note Off; the first failing send ends it.
   */
  function Play(out: Output, target: byte): (r: Result<Output, Failure>)
    ensures r.Ok? <==> TakesTwoMore(out)
    ensures r.Ok? ==> r.value.sent == out.sent + PlayedMessages(target) && r.value.failFrom == out.failFrom
    ensures r.Err? ==> r.error == CannotPlayNote
  {
    var on :- Send(out, NoteOnMessage(target));
    Send(on, NoteOffMessage(target))
  }

  /** The messages of `count` playbacks in a row. */
  function Repeated(target: byte, count: nat): seq<Message> {
    if count == 0 then [] else PlayedMessages(target) + Repeated(target, count - 1)
  }

  /**
   * `count` playbacks are `count` Note On / Note Off pairs for the target and
   * nothing else: even positions switch the note on, odd positions off.
   */
  lemma {:induction false} RepeatedAlternates(target: byte, count: nat)
    ensures |Repeated(target, count)| == 2 * count
    ensures forall i :: 0 <= i < 2 * count ==>
      Repeated(target, count)[i] == if i % 2 == 0 then NoteOnMessage(target) else NoteOffMessage(target)
  {
    if count > 0 {
      RepeatedAlternates(target, count - 1);
      var r := Repeated(target, count);
      forall i | 2 <= i < 2 * count
        ensures r[i] == if i % 2 == 0 then NoteOnMessage(target) else NoteOffMessage(target)
      {
        assert r[i] == Repeated(target, count - 1)[i - 2];
        assert (i - 2) % 2 == i % 2;
      }
    }
  }

  /**
   * For a target that is a MIDI key, a playback is, in MIDI 1.0 terms, a
   * Note On and then the matching Note Off, both on the first channel at
   * velocity 64.
   */
  lemma PlaybackIsNotePair(target: byte)
    requires IsDataByte(target)
    ensures Decode(NoteOnMessage(target)) == Some(NoteOn(0, target, 64))
    ensures Decode(NoteOffMessage(target)) == Some(NoteOff(0, target, 64))
  {
  }
}

/**
 * The channel between the input callback and the game loop, and the
 * "capture latest" receive of the game loop.
 *
 * The channel is a cursor over everything the callback will ever push:
 * `sent` is that whole stream (finite: after it the sender is dropped),
 * the first `delivered` of it have arrived, and the first `received` of
 * those have been taken by the game loop. What is queued is
 * `sent[received..delivered]`; what is still to come is `sent[delivered..]`.
 */
module Bridge {

  import opened Wrappers
  import opened Failures
  import opened Midi

  datatype Channel = Channel(sent: seq<byte>, delivered: nat, received: nat) {

    predicate Valid() {
      received <= delivered <= |sent|
    }

    /** Notes that have arrived and not been received. */
    function Queue(): seq<byte>
      requires Valid()
    {
      sent[received..delivered]
    }

    /** Notes the callback has still to push. */
    function Upcoming(): seq<byte>
      requires Valid()
    {
      sent[delivered..]
    }
  }

  /** A fresh channel: nothing has arrived yet. */
  function Open(stream: seq<byte>): (ch: Channel)
    ensures ch.Valid() && ch.Queue() == [] && ch.Upcoming() == stream
  {
    Channel(stream, 0, 0)
  }

  /** `count` more pushes arrive (as many as the callback still has). */
  function Deliver(ch: Channel, count: nat): (ch': Channel)
    requires ch.Valid()
    ensures ch'.Valid() && ch'.sent == ch.sent && ch'.received == ch.received
    ensures ch'.delivered - ch.delivered == if count < |ch.Upcoming()| then count else |ch.Upcoming()|
    ensures ch'.Queue() == ch.Queue() + ch.Upcoming()[..ch'.delivered - ch.delivered]
  {
    var d := if ch.delivered + count < |ch.sent| then ch.delivered + count else |ch.sent|;
    assert ch.sent[ch.received..d] == ch.sent[ch.received..ch.delivered] + ch.sent[ch.delivered..d];
    ch.(delivered := d)
  }

  /** What a capture hands to the game loop, with the channel after it. */
  datatype Taken = Taken(note: byte, rest: Channel)

  /**
   * The capture of the game loop: drain everything queued and keep the last
   * of it; when nothing is queued, wait for the next push; when nothing will
   * ever be pushed again, the receive fails.
   */
  function Capture(ch: Channel): (r: Result<Taken, Failure>)
    requires ch.Valid()
    ensures r.Err? <==> ch.received == |ch.sent|
    ensures r.Err? ==> r.error == ChannelClosed
    ensures r.Ok? ==> var c := r.value.rest;
      && c.Valid() && c.sent == ch.sent
      && ch.received < c.received && c.Queue() == []
      && r.value.note == ch.sent[c.received - 1]
    ensures r.Ok? && ch.Queue() != [] ==>
      && r.value.note == ch.Queue()[|ch.Queue()| - 1]
      && r.value.rest.delivered == ch.delivered
    ensures r.Ok? && ch.Queue() == [] ==>
      && r.value.note == ch.Upcoming()[0]
      && r.value.rest.delivered == ch.delivered + 1
  {
    if ch.received < ch.delivered then
      Ok(Taken(ch.sent[ch.delivered - 1], ch.(received := ch.delivered)))
    else if ch.delivered < |ch.sent| then
      Ok(Taken(ch.sent[ch.delivered], ch.(delivered := ch.delivered + 1, received := ch.delivered + 1)))
    else
      Err(ChannelClosed)
  }

  /**
   * Pushes that arrive while the player is busy are collapsed: after `count`
   * pushes arrive on an empty queue, a capture returns the last of them.
   */
  lemma CaptureLatestOfBurst(ch: Channel, count: nat)
    requires ch.Valid() && ch.Queue() == []
    requires 0 < count <= |ch.Upcoming()|
    ensures Capture(Deliver(ch, count)).Ok?
    ensures Capture(Deliver(ch, count)).value.note == ch.Upcoming()[count - 1]
  {
    var d := Deliver(ch, count);
    assert d.Queue() == ch.Upcoming()[..count];
  }

  /**
   * A capture that drained the queue is followed, when nothing new has
   * arrived, by one that must wait for a later push: it never hands back
   * the note just taken, and fails once the callback is gone.
   */
  lemma NextCaptureWaits(ch: Channel)
    requires ch.Valid() && ch.Queue() != []
    ensures Capture(ch).Ok?
    ensures var first := Capture(ch).value;
      var second := Capture(first.rest);
      && (second.Ok? <==> ch.delivered < |ch.sent|)
      && (second.Ok? ==>
            && second.value.note == ch.sent[ch.delivered]
            && second.value.rest.received > first.rest.received)
  {
  }
}

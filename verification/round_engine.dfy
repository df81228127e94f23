/**
 * The game: the startup check of the note range and one round of play.
 *
 * A round plays the target, captures the player's note and, in
 * interactive mode, asks for confirmation; every answer other than "y"
 * replays the target and captures again. The round ends with the last
 * captured note compared to the target.
 *
 * The environment of a round is a `World`: the console lines still to be
 * read, how many pushes arrive on the input channel before each capture,
 * the channel, and the output port.
 */
module RoundEngine {

  import opened Wrappers
  import opened Failures
  import opened Midi
  import opened Bridge
  import opened Console
  import opened Playback
  import NoteNamer
  import InputFilter

  /** The command line, with the defaults the program declares. */
  datatype Args = Args(
    portNo: Option<nat>,
    nonInteractive: bool,
    minNote: byte,
    maxNote: byte,
    guessPlayDurationMs: nat)

  const DefaultMinNote: byte := 36
  const DefaultMaxNote: byte := 96
  const DefaultGuessPlayDurationMs: nat := 150

  function DefaultArgs(portNo: Option<nat>, nonInteractive: bool): Args {
    Args(portNo, nonInteractive, DefaultMinNote, DefaultMaxNote, DefaultGuessPlayDurationMs)
  }

  /** The range targets are drawn from. */
  datatype NoteRange = NoteRange(min: byte, max: byte)

  /** The startup check: an empty range ends the program before any port is opened. */
  function CheckRange(args: Args): (r: Result<NoteRange, Failure>)
    ensures r.Ok? <==> args.minNote <= args.maxNote
    ensures r.Ok? ==> r.value.min <= r.value.max
    ensures r.Ok? ==> r.value == NoteRange(args.minNote, args.maxNote)
    ensures r.Err? ==> r.error == EmptyRange
  {
    if args.minNote > args.maxNote then Err(EmptyRange) else Ok(NoteRange(args.minNote, args.maxNote))
  }

  datatype World = World(console: seq<string>, arrivals: seq<nat>, input: Channel, output: Output)

  /** A captured note, its position in the pushed stream, and the world after the capture. */
  datatype Captured = Captured(note: byte, at: nat, world: World)

  /** Pushes arrive, then the game loop captures the latest note. */
  function CaptureNote(w: World): (r: Result<Captured, Failure>)
    requires w.input.Valid()
    ensures r.Err? <==> w.input.received == |w.input.sent|
    ensures r.Err? ==> r.error == ChannelClosed
    ensures r.Ok? ==> var c := r.value;
      && c.world.input.Valid() && c.world.input.sent == w.input.sent
      && w.input.received <= c.at < c.world.input.received
      && w.input.sent[c.at] == c.note
      && c.world.console == w.console && c.world.output == w.output
    // the latest arrival is taken and everything queued before it is dropped
    ensures r.Ok? ==>
      && r.value.at == r.value.world.input.received - 1
      && r.value.world.input.Queue() == []
      && r.value.world.arrivals == (if |w.arrivals| > 0 then w.arrivals[1..] else [])
  {
    var count := if |w.arrivals| > 0 then w.arrivals[0] else 0;
    var later := if |w.arrivals| > 0 then w.arrivals[1..] else [];
    var ch := Deliver(w.input, count);
    assert ch.Valid() && ch.sent == w.input.sent && ch.received == w.input.received;
    var t :- Capture(ch);
    assert t.rest.Valid() && t.rest.Queue() == [] && t.note == w.input.sent[t.rest.received - 1];
    Ok(Captured(t.note, t.rest.received - 1, w.(arrivals := later, input := t.rest)))
  }

  /** Strictly increasing positions: no pushed note is captured twice. */
  predicate Increasing(s: seq<nat>) {
    forall i, j :: 0 <= i < j < |s| ==> s[i] < s[j]
  }

  /**
   * `notes` were captured at positions `at` of `sent`, all taken at or after
   * position `from` and before position `upto`.
   */
  predicate CapturedFrom(sent: seq<byte>, from: nat, upto: nat, notes: seq<byte>, at: seq<nat>) {
    && |at| == |notes|
    && Increasing(at)
    && upto <= |sent|
    && forall i :: 0 <= i < |at| ==> from <= at[i] < upto && sent[at[i]] == notes[i]
  }

  /** A capture before a run of later captures extends that run. */
  lemma CapturedCons(sent: seq<byte>, from: nat, mid: nat, upto: nat, note: byte, pos: nat,
                     notes: seq<byte>, at: seq<nat>)
    requires from <= pos < mid <= upto && pos < |sent| && sent[pos] == note
    requires CapturedFrom(sent, mid, upto, notes, at)
    ensures CapturedFrom(sent, from, upto, [note] + notes, [pos] + at)
  {
    var at' := [pos] + at;
    var notes' := [note] + notes;
    forall i | 0 <= i < |at'|
      ensures from <= at'[i] < upto && sent[at'[i]] == notes'[i]
    {
      if i > 0 {
        assert at'[i] == at[i - 1] && notes'[i] == notes[i - 1];
      }
    }
    forall i, j | 0 <= i < j < |at'|
      ensures at'[i] < at'[j]
    {
      if i > 0 {
        assert at'[i] == at[i - 1] && at'[j] == at[j - 1];
      } else {
        assert at'[j] == at[j - 1];
      }
    }
  }

  /** One playback in front of `count` more is `count + 1` playbacks. */
  lemma RepeatedCons(before: seq<Message>, target: byte, count: nat)
    ensures before + PlayedMessages(target) + Repeated(target, count) == before + Repeated(target, count + 1)
  {
    assert Repeated(target, count + 1) == PlayedMessages(target) + Repeated(target, count);
  }

  /** The lines read after one `ReadLine` are the lines read before, shifted by one. */
  lemma LineAtRest(lines: seq<string>, i: nat)
    ensures LineAt(ReadLine(lines).1, i) == LineAt(lines, i + 1)
  {
  }

  /** One read, then `n` more, leave unread what `n + 1` reads leave. */
  lemma UnreadAfterRead(lines: seq<string>, n: nat)
    ensures Unread(ReadLine(lines).1, n) == Unread(lines, n + 1)
  {
  }

  /** `answers` are the first lines read from `lines`. */
  predicate ReadFrom(lines: seq<string>, answers: seq<string>) {
    forall i :: 0 <= i < |answers| ==> answers[i] == LineAt(lines, i)
  }

  /** The first `n` lines read from `lines`. */
  function FirstLines(lines: seq<string>, n: nat): (r: seq<string>)
    ensures |r| == n
  {
    if n == 0 then [] else [ReadLine(lines).0] + FirstLines(ReadLine(lines).1, n - 1)
  }

  /** Only the last element of `s` passes `p`. */
  predicate LastOnly<T>(p: T -> bool, s: seq<T>) {
    && |s| >= 1
    && p(s[|s| - 1])
    && forall i :: 0 <= i < |s| - 1 ==> !p(s[i])
  }

  /** Every answer refuses except the last, which confirms. */
  predicate ConfirmedLast(answers: seq<string>) {
    LastOnly(IsYes, answers)
  }

  /** The answers read after one line, behind that line, are the answers read from the start. */
  lemma ReadFromCons(lines: seq<string>, more: seq<string>)
    requires ReadFrom(ReadLine(lines).1, more)
    ensures ReadFrom(lines, [ReadLine(lines).0] + more)
  {
    var all := [ReadLine(lines).0] + more;
    forall i | 0 <= i < |all|
      ensures all[i] == LineAt(lines, i)
    {
      if i > 0 {
        assert all[i] == more[i - 1];
        LineAtRest(lines, i - 1);
      }
    }
  }

  /** An element that fails `p` in front of a sequence whose last element alone passes keeps that so. */
  lemma LastOnlyCons<T>(p: T -> bool, x: T, more: seq<T>)
    requires LastOnly(p, more) && !p(x)
    ensures LastOnly(p, [x] + more)
  {
    var all := [x] + more;
    assert all[|all| - 1] == more[|more| - 1];
    forall i | 0 <= i < |all| - 1
      ensures !p(all[i])
    {
      if i > 0 {
        assert all[i] == more[i - 1];
      }
    }
  }

  /** Dropping a failing head keeps the last element the only one that passes. */
  lemma LastOnlyTail<T>(p: T -> bool, s: seq<T>)
    requires |s| >= 2 && LastOnly(p, s)
    ensures !p(s[0]) && LastOnly(p, s[1..])
  {
    var t := s[1..];
    assert t[|t| - 1] == s[|s| - 1];
    forall i | 0 <= i < |t| - 1
      ensures !p(t[i])
    {
      assert t[i] == s[i + 1];
    }
  }

  /** A refusal in front of answers that end in the only "y" keeps "y" last and only. */
  lemma ConfirmedLastCons(line: string, more: seq<string>)
    requires ConfirmedLast(more) && !IsYes(line)
    ensures ConfirmedLast([line] + more)
  {
    LastOnlyCons(IsYes, line, more);
  }

  /**
   * One attempt: play the target, then capture the player's note — the
   * playback macro followed by the capture macro.
   */
  function Attempt(target: byte, w: World): (r: Result<Captured, Failure>)
    requires w.input.Valid()
    ensures r.Ok? <==> TakesTwoMore(w.output) && w.input.received < |w.input.sent|
    ensures r.Err? ==> (r.error == CannotPlayNote && w.output.failFrom.Some?) || r.error == ChannelClosed
    ensures r.Ok? ==> var c := r.value;
      && c.world.output.sent == w.output.sent + PlayedMessages(target)
      && c.world.output.failFrom == w.output.failFrom
      && c.world.console == w.console
      && c.world.input.Valid() && c.world.input.sent == w.input.sent
      && w.input.received <= c.at < c.world.input.received
      && w.input.sent[c.at] == c.note
    // as for a capture: the latest arrival, with the queue drained
    ensures r.Ok? ==>
      && r.value.at == r.value.world.input.received - 1
      && r.value.world.input.Queue() == []
      && r.value.world.arrivals == (if |w.arrivals| > 0 then w.arrivals[1..] else [])
  {
    var out :- Play(w.output, target);
    CaptureNote(w.(output := out))
  }

  /** What the confirmation loop did: answers read, notes re-captured, and the world after. */
  datatype Attempts = Attempts(answers: seq<string>, notes: seq<byte>, at: seq<nat>, world: World)

  /**
   * What a finished confirmation loop guarantees: one answer per replay plus
   * the final "y", the answers are the console's next lines and only they were
   * read, one playback went out per replay, and the re-captured notes are later
   * pushes, in order.
   */
  predicate LoopEnded(target: byte, w: World, a: Attempts)
    requires w.input.Valid()
  {
    && |a.answers| == |a.notes| + 1
    && ConfirmedLast(a.answers)
    && ReadFrom(w.console, a.answers)
    && a.world.console == Unread(w.console, |a.answers|)
    && a.world.output.sent == w.output.sent + Repeated(target, |a.notes|)
    && a.world.output.failFrom == w.output.failFrom
    && a.world.input.Valid() && a.world.input.sent == w.input.sent
    && w.input.received <= a.world.input.received
    && CapturedFrom(w.input.sent, w.input.received, a.world.input.received, a.notes, a.at)
  }

  /** A refusal and an attempt in front of a finished loop make a finished loop. */
  lemma LoopCons(target: byte, w: World, c: Captured, a: Attempts)
    requires w.input.Valid()
    requires !IsYes(ReadLine(w.console).0)
    requires Attempt(target, w.(console := ReadLine(w.console).1)) == Ok(c)
    requires c.world.input.Valid() && LoopEnded(target, c.world, a)
    ensures LoopEnded(target, w, Attempts([ReadLine(w.console).0] + a.answers, [c.note] + a.notes, [c.at] + a.at, a.world))
  {
    ReadFromCons(w.console, a.answers);
    ConfirmedLastCons(ReadLine(w.console).0, a.answers);
    CapturedCons(w.input.sent, w.input.received, c.world.input.received, a.world.input.received,
                 c.note, c.at, a.notes, a.at);
    RepeatedCons(w.output.sent, target, |a.notes|);
    UnreadAfterRead(w.console, |a.answers|);
  }

  /**
   * The confirmation loop: read an answer; "y" ends it, anything else
   * replays the target and captures again.
   */
  function ConfirmLoop(target: byte, w: World): (r: Result<Attempts, Failure>)
    requires w.input.Valid()
    ensures r.Err? ==> (r.error == CannotPlayNote && w.output.failFrom.Some?) || r.error == ChannelClosed
    ensures r.Ok? ==> |r.value.answers| == |r.value.notes| + 1
    decreases |w.input.sent| - w.input.received
  {
    var (line, rest) := ReadLine(w.console);
    if IsYes(line) then
      Ok(Attempts([line], [], [], w.(console := rest)))
    else
      var c :- Attempt(target, w.(console := rest));
      var a :- ConfirmLoop(target, c.world);
      Ok(Attempts([line] + a.answers, [c.note] + a.notes, [c.at] + a.at, a.world))
  }

  /** Every finished confirmation loop satisfies `LoopEnded`. */
  lemma {:induction false} ConfirmLoopEnds(target: byte, w: World)
    requires w.input.Valid()
    ensures var r := ConfirmLoop(target, w);
      r.Ok? ==> LoopEnded(target, w, r.value)
    decreases |w.input.sent| - w.input.received
  {
    var (line, rest) := ReadLine(w.console);
    if IsYes(line) {
      assert w.output.sent + Repeated(target, 0) == w.output.sent;
    } else if Attempt(target, w.(console := rest)).Ok? {
      var c := Attempt(target, w.(console := rest)).value;
      ConfirmLoopEnds(target, c.world);
      if ConfirmLoop(target, c.world).Ok? {
        LoopCons(target, w, c, ConfirmLoop(target, c.world).value);
      }
    }
  }

  /** How a round ended. */
  datatype Outcome = Correct(note: byte) | Incorrect(played: byte, target: byte) {

    /** The note the player settled on. */
    function Accepted(): byte {
      match this
      case Correct(n) => n
      case Incorrect(p, _) => p
    }
  }

  /** The verdict on the accepted note: correct exactly when it is the target. */
  function Resolve(note: byte, target: byte): (o: Outcome)
    ensures o.Accepted() == note
    ensures o.Correct? <==> note == target
    ensures o.Incorrect? ==> o.target == target
  {
    if note == target then Correct(note) else Incorrect(note, target)
  }

  /** A finished round. */
  datatype RoundEnd = RoundEnd(
    outcome: Outcome,
    playbacks: nat,
    captured: seq<byte>,
    at: seq<nat>,
    answers: seq<string>,
    world: World)

  /** The round's end once the captures are over: the last capture is judged. */
  function Settle(target: byte, captured: seq<byte>, at: seq<nat>, answers: seq<string>, world: World): RoundEnd
    requires |captured| > 0
  {
    RoundEnd(Resolve(captured[|captured| - 1], target), |captured|, captured, at, answers, world)
  }

  /** What a finished round guarantees. */
  predicate RoundEnded(nonInteractive: bool, target: byte, w: World, e: RoundEnd)
    requires w.input.Valid()
  {
    // one capture per playback, and the accepted note is the last capture
    && 1 <= e.playbacks == |e.captured|
    && e.outcome.Accepted() == e.captured[|e.captured| - 1]
    && (e.outcome.Correct? <==> e.outcome.Accepted() == target)
    && (e.outcome.Incorrect? ==> e.outcome.target == target)
    // exactly the playbacks went out, in order
    && e.world.output.sent == w.output.sent + Repeated(target, e.playbacks)
    && e.world.output.failFrom == w.output.failFrom
    // the captured notes are pushed notes, in push order, none taken twice
    && e.world.input.sent == w.input.sent
    && CapturedFrom(w.input.sent, w.input.received, e.world.input.received, e.captured, e.at)
    // the console lost exactly the lines answered
    && e.world.console == Unread(w.console, |e.answers|)
    // without confirmation: one playback, no console input
    && (nonInteractive ==> e.playbacks == 1 && e.answers == [])
    // with confirmation: one answer per playback, the last one "y" and only it
    && (!nonInteractive ==>
          |e.answers| == e.playbacks && ConfirmedLast(e.answers) && ReadFrom(w.console, e.answers))
  }

  /** A non-interactive round ends after its first attempt. */
  lemma SingleAttemptEnds(target: byte, w: World, c: Captured)
    requires w.input.Valid() && Attempt(target, w) == Ok(c)
    ensures RoundEnded(true, target, w, Settle(target, [c.note], [c.at], [], c.world))
  {
    var e := Settle(target, [c.note], [c.at], [], c.world);
    assert e.world.output.sent == w.output.sent + Repeated(target, e.playbacks) by {
      RepeatedCons(w.output.sent, target, 0);
      assert c.world.output.sent == w.output.sent + PlayedMessages(target) + Repeated(target, 0);
    }
    assert CapturedFrom(w.input.sent, w.input.received, e.world.input.received, e.captured, e.at);
    assert e.world.console == Unread(w.console, 0);
  }

  /** An interactive round ends with its first attempt and the confirmation loop. */
  lemma AttemptThenLoopEnds(target: byte, w: World, c: Captured, a: Attempts)
    requires w.input.Valid() && Attempt(target, w) == Ok(c)
    requires c.world.input.Valid() && LoopEnded(target, c.world, a)
    ensures RoundEnded(false, target, w, Settle(target, [c.note] + a.notes, [c.at] + a.at, a.answers, a.world))
  {
    var e := Settle(target, [c.note] + a.notes, [c.at] + a.at, a.answers, a.world);
    assert e.world.output.sent == w.output.sent + Repeated(target, e.playbacks) by {
      RepeatedCons(w.output.sent, target, |a.notes|);
    }
    assert CapturedFrom(w.input.sent, w.input.received, e.world.input.received, e.captured, e.at) by {
      CapturedCons(w.input.sent, w.input.received, c.world.input.received, a.world.input.received,
                   c.note, c.at, a.notes, a.at);
    }
    assert |e.answers| == e.playbacks && ConfirmedLast(e.answers) && ReadFrom(w.console, e.answers);
  }

  /** One round for `target`, with or without confirmation. */
  function Round(nonInteractive: bool, target: byte, w: World): (r: Result<RoundEnd, Failure>)
    requires w.input.Valid()
    ensures r.Err? ==> (r.error == CannotPlayNote && w.output.failFrom.Some?) || r.error == ChannelClosed
    ensures nonInteractive ==>
      (r.Ok? <==> TakesTwoMore(w.output) && w.input.received < |w.input.sent|)
  {
    var c :- Attempt(target, w);
    if nonInteractive then
      Ok(Settle(target, [c.note], [c.at], [], c.world))
    else
      var a :- ConfirmLoop(target, c.world);
      Ok(Settle(target, [c.note] + a.notes, [c.at] + a.at, a.answers, a.world))
  }

  /** Every finished round satisfies `RoundEnded`. */
  lemma RoundEnds(nonInteractive: bool, target: byte, w: World)
    requires w.input.Valid()
    ensures var r := Round(nonInteractive, target, w);
      r.Ok? ==> RoundEnded(nonInteractive, target, w, r.value)
  {
    if Attempt(target, w).Ok? {
      var c := Attempt(target, w).value;
      if nonInteractive {
        SingleAttemptEnds(target, w, c);
      } else {
        ConfirmLoopEnds(target, c.world);
        if ConfirmLoop(target, c.world).Ok? {
          AttemptThenLoopEnds(target, w, c, ConfirmLoop(target, c.world).value);
        }
      }
    }
  }

  /** A non-interactive round reads no console line at all. */
  lemma NonInteractiveReadsNothing(target: byte, w: World)
    requires w.input.Valid()
    ensures var r := Round(true, target, w);
      r.Ok? ==> r.value.answers == [] && r.value.world.console == w.console
  {
    RoundEnds(true, target, w);
  }

  /**
   * An input connection that failed to open has dropped its sender: no note
   * will ever come, so a round with a working output port ends with a closed channel.
   */
  lemma NoConnectionCloses(nonInteractive: bool, target: byte, w: World)
    requires w.input == Open([])
    ensures Round(nonInteractive, target, w).Err?
    ensures TakesTwoMore(w.output) ==> Round(nonInteractive, target, w).error == ChannelClosed
  {
  }

  /**
   * The program up to the end of its first round. `w` is the world after
   * port selection: when no port number is given, the program first reads
   * one console line for it, and `w.console` holds the lines after that one.
   */
  function Session(args: Args, target: byte, w: World): (r: Result<RoundEnd, Failure>)
    requires w.input.Valid()
    ensures r.Err? && r.error == EmptyRange <==> args.minNote > args.maxNote
  {
    var _ :- CheckRange(args);
    Round(args.nonInteractive, target, w)
  }

  /** The default range passes the startup check; a reversed range stops the program before any round. */
  lemma StartupCheck(args: Args, target: byte, w: World)
    requires w.input.Valid()
    ensures CheckRange(DefaultArgs(args.portNo, args.nonInteractive)).Ok?
    ensures args.minNote > args.maxNote ==> Session(args, target, w) == Err(EmptyRange)
  {
  }

  /**
   * A player who plays one note after each playback: nothing is queued
   * ahead of a capture, and each capture waits for the next note.
   */
  predicate OneNotePerPlayback(w: World) {
    && w.input.Valid()
    && w.input.Queue() == []
    && forall i :: 0 <= i < |w.arrivals| ==> w.arrivals[i] == 0
  }

  /** The first `n` of a sequence are its head and then the first `n - 1` of its tail. */
  lemma PrefixOfTail<T>(s: seq<T>, n: nat)
    requires 0 < n <= |s|
    ensures s[..n] == [s[0]] + s[1..][..n - 1]
  {
  }

  /** With a working output port, such a player's next attempt captures the next note they play. */
  lemma AttemptGetsNextPlayed(target: byte, w: World)
    requires OneNotePerPlayback(w) && w.output.failFrom.None? && |w.input.Upcoming()| > 0
    ensures Attempt(target, w).Ok?
    ensures Attempt(target, w).value.note == w.input.Upcoming()[0]
    ensures OneNotePerPlayback(Attempt(target, w).value.world)
    ensures Attempt(target, w).value.world.input.Upcoming() == w.input.Upcoming()[1..]
    ensures Attempt(target, w).value.world.console == w.console
    ensures Attempt(target, w).value.world.output.failFrom.None?
  {
    var w1 := w.(output := Play(w.output, target).value);
    assert Deliver(w1.input, if |w1.arrivals| > 0 then w1.arrivals[0] else 0) == w1.input;
    assert Attempt(target, w) == CaptureNote(w1);
    var c := CaptureNote(w1).value;
    forall i | 0 <= i < |c.world.arrivals|
      ensures c.world.arrivals[i] == 0
    {
      assert c.world.arrivals[i] == w.arrivals[i + 1];
    }
    assert c.world.input.Valid() && c.world.input.Queue() == [];
    assert OneNotePerPlayback(c.world);
  }

  /** A refusal, an attempt, then the rest of the loop. */
  lemma ConfirmLoopRefused(target: byte, w: World)
    requires w.input.Valid()
    requires !IsYes(ReadLine(w.console).0)
    requires Attempt(target, w.(console := ReadLine(w.console).1)).Ok?
    ensures var c := Attempt(target, w.(console := ReadLine(w.console).1)).value;
      && (ConfirmLoop(target, w).Ok? <==> ConfirmLoop(target, c.world).Ok?)
      && (ConfirmLoop(target, w).Ok? ==>
            ConfirmLoop(target, w).value.notes == [c.note] + ConfirmLoop(target, c.world).value.notes)
  {
  }

  /**
   * With a working output port, `refusals` refusing answers before the first
   * "y", and enough notes to come, the confirmation loop ends and re-captures
   * exactly the next `refusals` notes the player plays.
   */
  lemma {:induction false} ConfirmLoopCompletes(target: byte, w: World, refusals: nat)
    requires OneNotePerPlayback(w) && w.output.failFrom.None?
    requires ConfirmedLast(FirstLines(w.console, refusals + 1))
    requires refusals <= |w.input.Upcoming()|
    ensures var r := ConfirmLoop(target, w);
      r.Ok? && r.value.notes == w.input.Upcoming()[..refusals]
    decreases refusals
  {
    if refusals == 0 {
      ConfirmLoopStops(target, w);
    } else {
      var c := RefusedAttempt(target, w, refusals);
      ConfirmLoopCompletes(target, c.world, refusals - 1);
      RefusalThenLoop(target, w, refusals, c);
    }
  }

  /** After a refusal, the replay captures the next note and leaves one refusal fewer to come. */
  lemma RefusedAttempt(target: byte, w: World, refusals: nat) returns (c: Captured)
    requires OneNotePerPlayback(w) && w.output.failFrom.None?
    requires ConfirmedLast(FirstLines(w.console, refusals + 1))
    requires 0 < refusals <= |w.input.Upcoming()|
    ensures !IsYes(ReadLine(w.console).0)
    ensures Attempt(target, w.(console := ReadLine(w.console).1)) == Ok(c)
    ensures c.note == w.input.Upcoming()[0]
    ensures OneNotePerPlayback(c.world) && c.world.output.failFrom.None?
    ensures ConfirmedLast(FirstLines(c.world.console, refusals))
    ensures c.world.input.Upcoming() == w.input.Upcoming()[1..]
    ensures refusals - 1 <= |c.world.input.Upcoming()|
  {
    var w1 := w.(console := ReadLine(w.console).1);
    ShiftedAnswers(w.console, refusals);
    AttemptGetsNextPlayed(target, w1);
    c := Attempt(target, w1).value;
  }

  /** A refusal, the next note, then a loop that re-captured the `refusals - 1` notes after it. */
  lemma RefusalThenLoop(target: byte, w: World, refusals: nat, c: Captured)
    requires w.input.Valid() && 0 < refusals <= |w.input.Upcoming()|
    requires !IsYes(ReadLine(w.console).0)
    requires Attempt(target, w.(console := ReadLine(w.console).1)) == Ok(c)
    requires c.note == w.input.Upcoming()[0]
    requires var rest := ConfirmLoop(target, c.world);
      rest.Ok? && rest.value.notes == w.input.Upcoming()[1..][..refusals - 1]
    ensures var r := ConfirmLoop(target, w);
      r.Ok? && r.value.notes == w.input.Upcoming()[..refusals]
  {
    ConfirmLoopRefused(target, w);
    PrefixOfTail(w.input.Upcoming(), refusals);
  }

  /** A "y" read first ends the loop with nothing re-captured. */
  lemma ConfirmLoopStops(target: byte, w: World)
    requires w.input.Valid() && ConfirmedLast(FirstLines(w.console, 1))
    ensures ConfirmLoop(target, w).Ok?
    ensures ConfirmLoop(target, w).value.notes == []
  {
    assert FirstLines(w.console, 1)[0] == ReadLine(w.console).0;
  }

  /** After a refusal, the answers still to come are those that followed it. */
  lemma ShiftedAnswers(lines: seq<string>, refusals: nat)
    requires refusals > 0
    requires ConfirmedLast(FirstLines(lines, refusals + 1))
    ensures !IsYes(ReadLine(lines).0)
    ensures ConfirmedLast(FirstLines(ReadLine(lines).1, refusals))
  {
    var all := FirstLines(lines, refusals + 1);
    var later := FirstLines(ReadLine(lines).1, refusals);
    assert all == [ReadLine(lines).0] + later;
    assert all[1..] == later;
    LastOnlyTail(IsYes, all);
  }

  /** An interactive round is an attempt, then the confirmation loop. */
  lemma InteractiveRoundUnfolds(target: byte, w: World)
    requires w.input.Valid()
    requires Attempt(target, w).Ok?
    ensures var c := Attempt(target, w).value;
      && (Round(false, target, w).Ok? <==> ConfirmLoop(target, c.world).Ok?)
      && (Round(false, target, w).Ok? ==>
            Round(false, target, w).value.captured == [c.note] + ConfirmLoop(target, c.world).value.notes)
  {
  }

  /**
   * An interactive round in which `refusals` answers other than
   * "y", then a "y", take exactly `refusals + 1` playbacks and settle on the
   * note played after the last prompt.
   */
  lemma RefusalsReplay(target: byte, w: World, refusals: nat)
    requires OneNotePerPlayback(w) && w.output.failFrom.None?
    requires ConfirmedLast(FirstLines(w.console, refusals + 1))
    requires refusals < |w.input.Upcoming()|
    ensures var r := Round(false, target, w);
      && r.Ok?
      && r.value.playbacks == refusals + 1
      && r.value.captured == w.input.Upcoming()[..refusals + 1]
      && r.value.outcome.Accepted() == w.input.Upcoming()[refusals]
  {
    RefusalsCaptured(target, w, refusals);
    RoundSettles(false, target, w);
    var r := Round(false, target, w);
    assert r.value.captured[refusals] == w.input.Upcoming()[refusals];
  }

  /** The captures of such a round are the next `refusals + 1` notes played. */
  lemma RefusalsCaptured(target: byte, w: World, refusals: nat)
    requires OneNotePerPlayback(w) && w.output.failFrom.None?
    requires ConfirmedLast(FirstLines(w.console, refusals + 1))
    requires refusals < |w.input.Upcoming()|
    ensures var r := Round(false, target, w);
      r.Ok? && r.value.captured == w.input.Upcoming()[..refusals + 1]
  {
    AttemptGetsNextPlayed(target, w);
    var c := Attempt(target, w).value;
    ConfirmLoopCompletes(target, c.world, refusals);
    InteractiveRoundUnfolds(target, w);
    PrefixOfTail(w.input.Upcoming(), refusals + 1);
  }

  /** A finished round took one playback per capture and settled on the last capture. */
  lemma RoundSettles(nonInteractive: bool, target: byte, w: World)
    requires w.input.Valid()
    ensures var r := Round(nonInteractive, target, w);
      r.Ok? ==>
        && r.value.playbacks == |r.value.captured| >= 1
        && r.value.outcome.Accepted() == r.value.captured[|r.value.captured| - 1]
  {
    RoundEnds(nonInteractive, target, w);
  }

  /** Captures out of a forwarded stream are keys of forwarded messages. */
  lemma CapturedForwarded(raw: seq<Message>, from: nat, upto: nat, notes: seq<byte>, at: seq<nat>)
    requires CapturedFrom(InputFilter.ForwardAll(raw), from, upto, notes, at)
    ensures forall i :: 0 <= i < |notes| ==> exists m :: m in raw && InputFilter.Forward(m) == Some(notes[i])
  {
    var sent := InputFilter.ForwardAll(raw);
    forall i | 0 <= i < |notes|
      ensures exists m :: m in raw && InputFilter.Forward(m) == Some(notes[i])
    {
      assert sent[at[i]] == notes[i];
      assert notes[i] in sent;
      var m :| m in raw && InputFilter.Forward(m) == Some(notes[i]);
    }
    assert forall i :: 0 <= i < |notes| ==> exists m :: m in raw && InputFilter.Forward(m) == Some(notes[i]);
  }

  /**
   * When the channel carries what the input callback pushed for a run of raw
   * messages, every note a round captures is the key of a forwarded message.
   */
  lemma CapturedNotesWerePlayed(nonInteractive: bool, target: byte, w: World, raw: seq<Message>)
    requires w.input.Valid() && w.input.sent == InputFilter.ForwardAll(raw)
    ensures Round(nonInteractive, target, w).Ok? ==>
      forall i :: 0 <= i < |Round(nonInteractive, target, w).value.captured| ==>
        exists m :: m in raw && InputFilter.Forward(m) == Some(Round(nonInteractive, target, w).value.captured[i])
  {
    if Round(nonInteractive, target, w).Ok? {
      var e := Round(nonInteractive, target, w).value;
      RoundEnds(nonInteractive, target, w);
      CapturedForwarded(raw, w.input.received, e.world.input.received, e.captured, e.at);
    }
  }

  /** An incorrect guess always shows two different note names. */
  lemma IncorrectShowsTwoNames(o: Outcome)
    requires o.Incorrect?
    requires o == Resolve(o.played, o.target)
    ensures NoteNamer.NoteLabel(o.played) != NoteNamer.NoteLabel(o.target)
  {
    if NoteNamer.NoteLabel(o.played) == NoteNamer.NoteLabel(o.target) {
      NoteNamer.LabelInjective(o.played, o.target);
    }
  }
}

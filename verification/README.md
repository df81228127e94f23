# guess-note, modelled in Dafny

guess-note is an ear-training game for a MIDI keyboard. In each round it plays a random target note on a MIDI output port. It then listens on a MIDI input port for the note the player answers with. In interactive mode it prints the captured note's name and asks "Confirm your guess? y/n". Any answer other than "y" replays the target and captures again. At the end it says whether the accepted note is the target, naming both notes.

The model covers the deterministic core of `src/main.rs`:

- **Note namer** (`note_number_to_sign`), in `note_namer.dfy` and `decimal.dfy`. A note number becomes a label: a pitch-class name from a 12-entry table, right-aligned in a two-character field, then the octave `x / 12 - 1` as an `i16` in decimal. `NoteNamer.ReadLabel` reads a label back into pitch class and octave. The lemmas use it to say what a label shows: the pitch class, the octave, and the note itself.
- **Input callback filter**, in `input_filter.dfy`. It decides which raw messages from the input port are pushed into the channel. `Midi.Decode`/`Midi.Encode` (`midi.dfy`) are an independent reading of the Note On (`9nH`) and Note Off (`8nH`) Channel Voice messages of the MIDI 1.0 Detailed Specification. The filter is compared against that reading.
- **"Capture latest" receive** (`capture_next_note!`), in `bridge.dfy`. The mpsc channel is a cursor over the finite stream of everything the callback will push: `sent`, how much has been `delivered`, and how much the game loop has `received`. A capture drains the queue and keeps its last note. If the queue is empty it waits for the next push. In the program, that wait ends only with a push or when every sender is dropped. The sender lives in the callback. When `midi_in.connect` succeeds, the connection owns that callback for the whole run, so a player who stops playing leaves the program waiting forever. The result of `connect` is never checked: when it fails, the callback and its sender are dropped at once, and the first capture fails. That is the stream with nothing in it (`RoundEngine.NoConnectionCloses`). The model's stream is finite, and a capture past its end fails with `ChannelClosed`. That covers both a dropped sender and a wait that never ends (see "## Left out").
- **Playback** (`play_guess_note!`), in `playback.dfy`. A playback is a Note On and a Note Off for the target on an output port, and the port may start refusing sends.
- **Console answer**, in `console.dfy`. This is the confirmation test `read_line().trim().to_lowercase() == "y"`, with stdin as a finite list of lines.
- **Round and startup check**, in `round_engine.dfy`. This covers the `min_note > max_note` check, one attempt (playback then capture), the confirm/replay loop, and the verdict. A round runs in a `World`: the console lines, the number of pushes that arrive before each capture, the input channel, and the output port. `RoundEngine.Round` returns every capture, their positions in the pushed stream, the answers read and the playbacks sent. `RoundEngine.RoundEnded` states what every finished round guarantees, and `RoundEngine.RoundEnds` proves it of `RoundEngine.Round`.

## Model

| member | source | states |
|---|---|---|
| NoteNamer.NoteLabel | src/main.rs:32-43 | The namer itself: pitch field, then octave. `NoteNamer.ReadNoteLabel` states what the label shows. |
| NoteNamer.PitchClass | src/main.rs:40 | The table index `x % 12` is always a valid index into the twelve names. |
| NoteNamer.PadLeft | src/main.rs:39 | Right-alignment as `{:>2}` does it. `NoteNamer.PadLeftKeepsText` states the result. |
| NoteNamer.Field | src/main.rs:34-40 | The padded pitch-class name. `NoteNamer.FieldShape` and `NoteNamer.FieldReadsBack` state its form. |
| NoteNamer.LabelStartsWithField | src/main.rs:38-40 | A label is longer than two characters, and its first two are the pitch field. |
| NoteNamer.Octave | src/main.rs:41 | The octave printed for any `u8` note lies between -1 and 20, so the `i16` arithmetic cannot overflow. |
| NoteNamer.PadLeftKeepsText | src/main.rs:39 | Right-alignment to a width keeps the text at the right end, fills only with spaces, and gives exactly the width when the text is shorter. |
| NoteNamer.FieldShape | src/main.rs:34-39 | Every pitch-class field is exactly two characters: a space and the letter for one-letter names, the name itself for sharps. |
| NoteNamer.FieldReadsBack | src/main.rs:34-40 | Every one of the twelve fields reads back as its own pitch class, so the fields are pairwise distinct. |
| NoteNamer.ReadNoteLabel | src/main.rs:32-43 | The label of `x` reads back as exactly pitch class `x % 12` and octave `x / 12 - 1`. |
| NoteNamer.LabelRoundTrip | src/main.rs:32-43 | The pitch read from a label gives back the note number. |
| NoteNamer.LabelInjective | src/main.rs:32-43 | Two different note numbers never get the same label. |
| NoteNamer.OctaveApart | src/main.rs:34-41 | Notes twelve apart have the same pitch field and octaves differing by one. |
| NoteNamer.FieldLead | src/main.rs:34-39 | A field starts with a space exactly for the white keys; black-key fields end in '#'. |
| NoteNamer.LeadingSpace | src/main.rs:38-40 | A label starts with a space if and only if it names a white key; otherwise its second character is '#'. |
| NoteNamer.SampleLabels | src/main.rs:38-41 | 0 is named " C-1", 60 is " C4" and 127 is " G9". |
| NoteNamer.SampleSharpLabels | src/main.rs:38-41 | 61 is named "C#4", and 255 is "D#20", with a two-digit octave. |
| Decimal.NatToDecimal | src/main.rs:41 | A natural number is written as at least one decimal digit, with no leading zero unless the number is 0. |
| Decimal.IntToDecimal | src/main.rs:41 | An integer's text starts with '-' exactly when it is negative. |
| Decimal.ParseRendered | src/main.rs:41 | Reading back the text of any integer gives that integer. |
| Decimal.RenderingInjective | src/main.rs:41 | Different octaves are written differently. |
| InputFilter.Forward | src/main.rs:99-103 | The callback's test. `InputFilter.ForwardsFirstChannelNotes` and `InputFilter.ForwardedIsFirstChannelNote` state it against MIDI 1.0 in both directions. |
| InputFilter.ForwardsFirstChannelNotes | src/main.rs:98-104 | A MIDI 1.0 Note On or Note Off is pushed exactly when it is on channel 1 with non-zero velocity, and then the value pushed is its key. |
| InputFilter.ForwardedIsFirstChannelNote | src/main.rs:98-104 | Conversely, a forwarded message with proper data bytes decodes as a channel-1 note event with non-zero velocity, whose key is the pushed value. |
| InputFilter.DropsSilentNoteOn | src/main.rs:100-101 | A Note On with velocity 0 pushes nothing, on every channel. |
| InputFilter.DropsOtherChannels | src/main.rs:100-101 | Note messages on channels 2 to 16 push nothing. |
| InputFilter.ForwardsHighNoteByte | src/main.rs:100-103 | The data bytes are not checked: `[0x90, 200, 1]`, which is not a MIDI 1.0 message, pushes 200. |
| InputFilter.ForwardAll | src/main.rs:98-104 | A run of raw messages pushes at most one note per message, and every pushed note is the value some message of the run forwards. |
| InputFilter.ForwardAllAppend | src/main.rs:98-104 | Each message is filtered on its own: the pushes for two runs are the pushes of each, in order. |
| Bridge.Open | src/main.rs:93 | A new channel has nothing queued, and everything the callback will push is still to come. |
| Bridge.Deliver | src/main.rs:103 | Pushes arrive in order, behind what is queued, and no more arrive than the callback has left. |
| Bridge.Capture | src/main.rs:116-124 | With notes queued, a capture returns the last one and empties the queue. With nothing queued, it takes the next push. Past the end of the modelled stream, and only there, it fails with a closed channel. |
| Bridge.CaptureLatestOfBurst | src/main.rs:118-119 | Of a burst of pushes that arrived during a playback, only the last is captured. |
| Bridge.NextCaptureWaits | src/main.rs:118-121 | After a draining capture, the next capture never returns the same push: it waits for a later one, or fails if there is none. |
| Console.TrimStart | src/main.rs:148 | Trimming the start never lengthens a line. |
| Console.TrimStartRemovesLeading | src/main.rs:148 | `TrimStart` leaves a suffix of the input that does not start with whitespace, and everything it removed is whitespace. So it removes exactly the leading whitespace. |
| Console.TrimEnd | src/main.rs:148 | Trimming the end never lengthens a line. |
| Console.TrimEndRemovesTrailing | src/main.rs:148 | `TrimEnd` leaves a prefix of the input that does not end in whitespace, and everything it removed is whitespace. So it removes exactly the trailing whitespace. |
| Console.Trim | src/main.rs:148 | Strips both ends, as `str::trim` does. `Console.TrimPadded` states the result. |
| Console.LowerChar | src/main.rs:148 | Maps 'A' to 'Z' onto 'a' to 'z' and keeps every other character. |
| Console.ToLower | src/main.rs:148 | Lower-casing keeps the length. |
| Console.ToLowerEach | src/main.rs:148 | Lower-casing works character by character: position `i` of the result is `LowerChar` of position `i` of the input. |
| Console.IsYes | src/main.rs:148 | The confirmation test: trimmed and lower-cased, the line is exactly "y". `Console.YesIsOneLetter` states when it holds. |
| Console.TrimPadded | src/main.rs:148 | Trimming a word surrounded by whitespace gives back the word. |
| Console.YesIsOneLetter | src/main.rs:148 | A line confirms if and only if trimming leaves exactly "y" or "Y". |
| Console.PaddedYesConfirms | src/main.rs:148 | "y" or "Y" with any whitespace around it, the line terminator included, confirms. |
| Console.ReadLine | src/main.rs:53-58 | A read takes the next line whole, so the line and the lines after it make up the input. At end of input the cleared buffer reads as "" and nothing is consumed. |
| Console.EndOfInputDoesNotConfirm | src/main.rs:53-58 | A read at end of input yields the cleared buffer, which does not confirm. |
| Playback.Send | src/main.rs:132-136 | A send appends the message when the port accepts it, and fails with "cannot play note" when it does not. |
| Playback.NoteOnMessage | src/main.rs:128 | `[0x90, t, 0x40]`. `Playback.PlaybackIsNotePair` states it is a channel-1 Note On. |
| Playback.NoteOffMessage | src/main.rs:130 | `[0x80, t, 0x40]`. `Playback.PlaybackIsNotePair` states it is the matching Note Off. |
| Playback.PlayedMessages | src/main.rs:126-137 | The two messages of one playback, in order. `Playback.RepeatedAlternates` states the trace of several. |
| Playback.Play | src/main.rs:126-137 | A playback succeeds exactly when the port takes two more messages, and then it adds Note On followed by Note Off for the target. |
| Playback.RepeatedAlternates | src/main.rs:126-137 | `n` playbacks are `2n` messages, alternating Note On and Note Off for the target. |
| Playback.PlaybackIsNotePair | src/main.rs:128-134 | For a MIDI key, the two messages are a channel-1 Note On and the matching Note Off at velocity 64. |
| RoundEngine.CheckRange | src/main.rs:63-65 | The startup check passes if and only if `min_note <= max_note`; otherwise it fails with "Note range cannot be empty". |
| RoundEngine.StartupCheck | src/main.rs:21-26 | The default range 36..96 passes the check, and a reversed range stops the program before any round. |
| RoundEngine.Session | src/main.rs:61-65 | The program fails with the empty-range error if and only if `min_note > max_note`. |
| RoundEngine.CaptureNote | src/main.rs:116-124 | A capture fails only on a closed channel. Otherwise it takes the latest push that has arrived, at a new position of the stream, and drops everything queued before it. The queue is empty afterwards, and console and output are untouched. |
| RoundEngine.Attempt | src/main.rs:139-141 | An attempt succeeds exactly when the port takes a playback and a note can still come. It sends one playback. The note is the latest push to arrive, at a fresh position, and the queue is left empty. |
| RoundEngine.ConfirmLoop | src/main.rs:143-155 | The loop reads one more answer than it re-captures notes. It fails only with a refused send on a port that can refuse, or a closed channel. `RoundEngine.ConfirmLoopEnds` states the rest. |
| RoundEngine.ConfirmLoopEnds | src/main.rs:143-155 | A finished loop read one answer per replay plus a final "y", all in console order, and the console lost exactly those lines. It sent one playback per replay, and the port's failure point is unchanged. It re-captured notes at increasing positions. |
| RoundEngine.Settle | src/main.rs:158-169 | Judges the last capture. `RoundEngine.RoundEnds` states the result. |
| RoundEngine.Resolve | src/main.rs:158-169 | The outcome is Correct exactly when the accepted note is the target. |
| RoundEngine.Round | src/main.rs:139-169 | Errors are a refused send on a port that can refuse, or a closed channel. A non-interactive round succeeds exactly when the port takes a playback and a note can still come. `RoundEngine.RoundEnds` states what a finished round did. |
| RoundEngine.RoundEnds | src/main.rs:139-169 | A finished round has one capture per playback, and the last capture is the accepted note. Playbacks go out in order, and the port's failure point is unchanged. Each pushed note is captured at most once. The console lost exactly the lines answered. Non-interactive mode has one playback and reads nothing. Interactive mode has one answer per playback, read in console order, with "y" last and only last. |
| RoundEngine.NonInteractiveReadsNothing | src/main.rs:139-141 | A non-interactive round reads no answer and leaves the console untouched. |
| RoundEngine.RoundSettles | src/main.rs:139-169 | A finished round made one playback per capture and accepted its last capture. |
| RoundEngine.NoConnectionCloses | src/main.rs:93-106 | When the input connection was never made, no note can come. A round then fails, and with a working output port it fails with a closed channel. |
| RoundEngine.SingleAttemptEnds | src/main.rs:139-141 | In non-interactive mode, the first attempt ends the round with one playback. |
| RoundEngine.AttemptThenLoopEnds | src/main.rs:139-156 | In interactive mode, the first attempt followed by the confirmation loop ends the round. |
| RoundEngine.AttemptGetsNextPlayed | src/main.rs:139-141 | For a player who plays one note per playback, with a working output port, an attempt captures exactly the next note they play. |
| RoundEngine.ConfirmLoopRefused | src/main.rs:148-154 | A refusing answer is followed by a replay and a capture, and that capture leads the loop's captures. |
| RoundEngine.ConfirmLoopStops | src/main.rs:148-150 | A "y" read first ends the loop with nothing re-captured. |
| RoundEngine.RefusedAttempt | src/main.rs:148-154 | For a player who plays one note per playback, with a working output port, the replay after a refusal captures the next note, leaving one refusal fewer to come. |
| RoundEngine.ShiftedAnswers | src/main.rs:148-154 | After a refusal, the answers still to come are the ones that followed it, still refusals ending in one "y". |
| RoundEngine.RefusalThenLoop | src/main.rs:148-155 | A refusal, the next note played, then a loop that re-captured the notes after it, together re-capture the next notes in order. |
| RoundEngine.ConfirmLoopCompletes | src/main.rs:143-155 | With `k` refusals before a "y", the loop ends after re-capturing exactly the next `k` notes played. |
| RoundEngine.InteractiveRoundUnfolds | src/main.rs:141-156 | An interactive round's captures are the first capture followed by those of the confirmation loop. |
| RoundEngine.RefusalsCaptured | src/main.rs:139-156 | For a player who plays one note per playback, with an output port that never fails: with `k` refusals before a "y", the round captures exactly the next `k + 1` notes played. |
| RoundEngine.RefusalsReplay | src/main.rs:139-169 | With `k` refusals before a "y", the round makes exactly `k + 1` playbacks and accepts the note played after the last prompt. |
| RoundEngine.CapturedNotesWerePlayed | src/main.rs:98-124 | Every note a round captures is the key of a raw message the callback forwarded. |
| RoundEngine.IncorrectShowsTwoNames | src/main.rs:163-168 | An incorrect verdict always prints two different note names. |

## Behaviour worth knowing

- Labels carry the padding of `{:>2}`. Middle C is " C4", not "C4", and every white key's label starts with a space (`NoteNamer.LeadingSpace`).
- The filter compares the status byte with exactly `0x90` and `0x80`, so only channel 1 is heard (`InputFilter.DropsOtherChannels`). A Note On with velocity 0, which MIDI 1.0 treats as a Note Off, is dropped. A Note Off with non-zero velocity is forwarded exactly like a Note On, so releasing a key counts as playing it.
- The note and velocity bytes are not checked to be data bytes (`InputFilter.ForwardsHighNoteByte`).
- Stdin read failures propagate as errors. At end of input each read yields "" and never confirms (`Console.EndOfInputDoesNotConfirm`). So an interactive round whose stdin is exhausted keeps replaying the target until a send fails or no note can come any more.

## Left out

- Target generation (`rand::random::<f32>()` scaled to the range and truncated to `u8`) is floating point and randomness. The target is a parameter of every round.
- MIDI port enumeration, connection and port-number selection, including the "No available MIDI ports found" and "invalid input" errors, are device and library I/O. The output port is abstracted as `Playback.Output`, whose sends may fail from some point on.
- Command-line parsing is a library. `RoundEngine.Args` holds the parsed values and the declared defaults.
- The hold between Note On and Note Off (`sleep_ms` of `guess_play_duration_ms`) is a real-time delay with no logical content. The duration is carried in `Args` and not used.
- Printing is left out, apart from the note names it prints.
- Stdin read errors are left out. Reads succeed, and end of input reads as "".
- Threads, and interleavings between the callback and the game loop, are left out. The pushes that arrive before each capture are a parameter (`World.arrivals`). A channel whose sender is dropped is a stream that ends.
- Capture, ConfirmLoop and Round are modelled over a finite stream of pushes. In the program, `recv` fails only when every sender is dropped. When `midi_in.connect` succeeds, the sender is owned by the input connection, which lives until `main` returns. A player who stops playing then leaves the program blocked forever, not failing, and the model's `ChannelClosed` also stands for that endless wait. When `connect` fails, the sender is dropped at once, and the model's empty stream fails with `ChannelClosed` as the program does. `RoundEngine.ConfirmLoop` terminates (it decreases the number of pushes still to receive) only because the stream is finite. The program's confirmation loop has no bound.
- The endless outer loop is left out. The model covers the startup check and one round (`RoundEngine.Session`).
- Console.LowerChar and Console.ToLower: model only ASCII letters becoming lower case. No other character can lower-case to "y", so the confirmation test is unaffected.
- RoundEngine.RefusalsReplay: states the round's result only for a player who plays exactly one note after each playback, with an output port that never fails. `RoundEngine.RoundEnds` covers every other environment, but says less about it.
- RoundEngine.ConfirmLoopCompletes: has the same environment restriction as `RoundEngine.RefusalsReplay`.
- RoundEngine.RefusalsCaptured: has the same environment restriction. With several notes pushed per playback, a capture takes only the latest of each burst, so the captures are not the next notes played.

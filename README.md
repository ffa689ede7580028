# Morse Key Express, modelled in Dafny

Morse Key Express is a small desktop application. The user types a text and
can do two things with it:

- "Interpret" shows the text as dots and dashes on a label.
- "Play" also sounds the text as 650 Hz Morse tones. While it plays, an
  on-screen key lamp turns on and off in step with the tones.

This project models the logic of the application window class
`MorseKeyExpressApp` and proves properties of that model. The modules follow
the window's parts:

- `Alphabet`: the fixed Morse table (upper-case letters, digits, the space
  and eight punctuation marks) and the upper-casing of the input.
- `Render`: what the "Interpret" action shows. Each table character of the
  upper-cased text gives its code followed by one space. The result is then
  stripped of leading and trailing whitespace. Characters that are not in
  the table are skipped.
- `Timeline`: the encoder that runs at the start of playback. It turns the
  text into an ordered list of audio segments (tones and silences) and an
  ordered list of lamp events `(time, On|Off)`, driven by a running time
  cursor.
  - A space is one word gap.
  - A letter is its signals. Each signal is a tone, with a signal gap
    between signals and one character gap after the last.
  - A character with no table entry contributes nothing.
  - All times are whole numbers of 5 ms units: dot 14, dash 40, signal gap
    7, character gap 35, word gap 84 (0.07 s, 0.2 s, 0.035 s, 0.175 s,
    0.42 s).
- `Waveform`: the 16-bit PCM buffer at 44100 Hz. Each segment becomes
  `int(44100 * duration)` samples: a tone's are given by a parameter, a
  silence's are zeros. The buffer is these runs concatenated in order.
- `Session`: the class `MorseKeyExpress` with the window's playback state:
  - the `isPlaying` guard, the label text, the pending lamp-event queue and
    the buffer handed to the audio output;
  - the Play and Interpret buttons;
  - the audio output's idle callback;
  - the periodic poll. It pops every queued event whose time has come, front
    first.

The poll takes the elapsed playback time as a parameter, in 5 ms units.

A text made only of characters that have no table entry (for example `"@"`)
is not empty, so Play sets the guard and disables the buttons. The encoder
then produces no segment, and `np.concatenate` of the empty list raises a
`ValueError` (morse.py:344). The handler does not catch it, and nothing
after that point runs. The model follows the code: `Play` returns
`NothingToConcatenate` and leaves `isPlaying` set.
`UnknownOnlyLocksPlayback` shows that every later Play request is refused.
That lock only matters if the process survives the exception. The file
installs no `sys.excepthook`, and with PyQt5 5.5 or later an exception that
escapes a slot aborts the application.

Two more points of the code fix the model's shape:

- The sample count of each duration is truncated with `int(...)`
  (morse.py:276), and so is `SampleCount`. `TruncationError` bounds the
  error: less than one sample per segment, always short.
- The code never checks whether `audio_output.start` succeeded
  (morse.py:351). So the model has no start-failure path: after a start,
  only the idle report clears the guard.

## Model

| member | source | states |
|---|---|---|
| Alphabet.Lookup | morse-key-express/usr/share/morse-key-express/morse.py:98-115 | the dictionary lookup: every key maps to a non-empty string (a missing key gives None) |
| Alphabet.UpperChar | morse-key-express/usr/share/morse-key-express/morse.py:267 | the result is never a lower-case letter; it is a table key exactly when the character was a key or a lower-case letter, and a key is left unchanged |
| Alphabet.Upper | morse-key-express/usr/share/morse-key-express/morse.py:267 | the normalised text has the same length, and holds a table key at exactly the positions that held a key or a lower-case letter |
| Alphabet.TableWellFormed | morse-key-express/usr/share/morse-key-express/morse.py:98-115 | the space maps to a single space; every other entry is a non-empty string of dots and dashes |
| Alphabet.KnownCharacters | morse-key-express/usr/share/morse-key-express/morse.py:98-115 | the table's keys are exactly A-Z, 0-9, the space and . , : ; - _ ? ! |
| Alphabet.UpperKnown | morse-key-express/usr/share/morse-key-express/morse.py:267 | a lower-case letter is not a key itself, but its upper-cased form is a letter key |
| Render.Rendering | morse-key-express/usr/share/morse-key-express/morse.py:268-271 | the loop's string before the strip, as a function of the text; its properties are `RenderingAppend`, `RenderingChar`, `RenderingSkipsUnknown`, `RenderingAlphabet` and `RenderingSignals` |
| Render.RenderText | morse-key-express/usr/share/morse-key-express/morse.py:266-273 | the label text is the stripped rendering of the upper-cased text: code plus one space per table character, in input order |
| Render.StripInfix | morse-key-express/usr/share/morse-key-express/morse.py:273 | `Strip` gives the infix between the leading and the trailing whitespace; it neither starts nor ends with whitespace |
| Render.RenderingAppend | morse-key-express/usr/share/morse-key-express/morse.py:268-271 | rendering a concatenation renders each part in order |
| Render.RenderingSnoc | morse-key-express/usr/share/morse-key-express/morse.py:268-271 | appending one character appends its code and one space, or nothing when it is not a key |
| Render.RenderingChar | morse-key-express/usr/share/morse-key-express/morse.py:270-271 | one table character renders as its code and one space; any other character renders as nothing |
| Render.RenderingSkipsUnknown | morse-key-express/usr/share/morse-key-express/morse.py:270 | inserting a character that is not in the table changes nothing |
| Render.RenderingAlphabet | morse-key-express/usr/share/morse-key-express/morse.py:268-271 | the rendering contains only dots, dashes and spaces |
| Render.RenderingSignals | morse-key-express/usr/share/morse-key-express/morse.py:268-271 | with its spaces removed, the rendering is exactly the concatenated codes of the text's letters |
| Render.DisplayShape | morse-key-express/usr/share/morse-key-express/morse.py:273 | the label text neither starts nor ends with a space and uses only dots, dashes and spaces |
| Render.SosDisplay | morse-key-express/usr/share/morse-key-express/morse.py:266-273 | "sos" is shown as "... --- ..." |
| Timeline.CharSegments | morse-key-express/usr/share/morse-key-express/morse.py:309-342 | the segments of one character: a word gap for the space, nothing for a missing key, else its tones and one character gap; stated by `SpaceIsWordGap`, `UnknownSkipped` and `LetterSegments` |
| Timeline.Segments | morse-key-express/usr/share/morse-key-express/morse.py:309-342 | the loop's audio list as a function of the text, one character after another; stated by `SegmentsAppend`, `SegmentsTones` and `BuildTimeline` |
| Timeline.EventsOf | morse-key-express/usr/share/morse-key-express/morse.py:328-331 | the lamp events implied by segments played from a start time; stated by `EventsAppend`, `EventPairs` and `EventsOrdered` |
| Timeline.BuildTimeline | morse-key-express/usr/share/morse-key-express/morse.py:305-342 | the loop's audio list is the encoding of the text; its event list is exactly the events those segments imply from time 0; the cursor ends at the total duration |
| Timeline.EmitCode | morse-key-express/usr/share/morse-key-express/morse.py:320-337 | the inner loop appends one tone per signal with a signal gap between signals, and keeps events and cursor tied to the segments |
| Timeline.SegmentsAppend | morse-key-express/usr/share/morse-key-express/morse.py:309-342 | encoding a concatenation encodes each part in order |
| Timeline.EventsAppend | morse-key-express/usr/share/morse-key-express/morse.py:328-331 | the events of a concatenation are those of the first part, then those of the second shifted by the first part's duration |
| Timeline.UnknownSkipped | morse-key-express/usr/share/morse-key-express/morse.py:316-318 | a character without a table entry changes neither the segments nor the events |
| Timeline.AtSignSkipped | morse-key-express/usr/share/morse-key-express/morse.py:316-318 | "A@B" is encoded exactly as "AB" |
| Timeline.SpaceIsWordGap | morse-key-express/usr/share/morse-key-express/morse.py:310-314 | a space adds exactly one word-gap silence and nothing else |
| Timeline.LetterSegments | morse-key-express/usr/share/morse-key-express/morse.py:320-342 | a letter with k signals gives 2k segments: the tones match its signals, signal gaps come only between tones, and one character gap comes last |
| Timeline.SegmentsTones | morse-key-express/usr/share/morse-key-express/morse.py:320-327 | the tones of the encoding are the signals of the text's letters in order, each with its dot or dash length |
| Timeline.EventPairs | morse-key-express/usr/share/morse-key-express/morse.py:328-331 | events alternate on/off, one pair per tone; each off follows its on by that tone's length |
| Timeline.EventsOrdered | morse-key-express/usr/share/morse-key-express/morse.py:328-331 | event times never decrease and lie between the start and the end of the segments |
| Timeline.TextEventsIncrease | morse-key-express/usr/share/morse-key-express/morse.py:305-342 | the events of any text have strictly increasing times |
| Timeline.TextEvents | morse-key-express/usr/share/morse-key-express/morse.py:320-331 | a text gives two events per signal of its letters: on then off, with the off following the on by that signal's length |
| Timeline.SingleE | morse-key-express/usr/share/morse-key-express/morse.py:305-342 | "E" is a dot and a character gap: lamp on at 0, off at 0.07 s, 0.245 s in all |
| Waveform.SampleCount | morse-key-express/usr/share/morse-key-express/morse.py:276 | the sample count is the exact count truncated toward zero |
| Waveform.WaveData | morse-key-express/usr/share/morse-key-express/morse.py:275-284 | a segment gives exactly its sample count of samples |
| Waveform.DurationSampleCounts | morse-key-express/usr/share/morse-key-express/morse.py:119-124 | the five durations give 3087, 8820, 1543, 7717 and 18522 samples |
| Waveform.Buffer | morse-key-express/usr/share/morse-key-express/morse.py:344 | the concatenated samples of the segments, in order; stated by `BufferLength` and `BufferRun` |
| Waveform.BufferLength | morse-key-express/usr/share/morse-key-express/morse.py:344 | the buffer has as many samples as the segments' counts add up to |
| Waveform.BufferRun | morse-key-express/usr/share/morse-key-express/morse.py:344 | segment k's run starts after the runs before it and is exactly its own samples: runs neither overlap nor leave gaps |
| Waveform.SilenceIsZero | morse-key-express/usr/share/morse-key-express/morse.py:283 | every sample of a silence is zero |
| Waveform.TruncationError | morse-key-express/usr/share/morse-key-express/morse.py:276 | the buffer is never longer than the exact duration, and is shorter by less than one sample per segment |
| Waveform.SingleESamples | morse-key-express/usr/share/morse-key-express/morse.py:344 | the buffer for "E" has 3087 + 7717 samples |
| Session.Due | morse-key-express/usr/share/morse-key-express/morse.py:371 | the number of due events is the longest prefix of the queue whose times are at most the elapsed time |
| Session.Drain | morse-key-express/usr/share/morse-key-express/morse.py:371-372 | the loop pops exactly the due prefix, in order, and keeps the rest in order |
| Session.SortedDue | morse-key-express/usr/share/morse-key-express/morse.py:371 | in a sorted queue, every event left after the due prefix is in the future |
| Session.PollsCompose | morse-key-express/usr/share/morse-key-express/morse.py:365-372 | a poll at e1 followed by a poll at a later e2 fires exactly what one poll at e2 fires: nothing is skipped or fired twice |
| Session.MorseKeyExpress.constructor | morse-key-express/usr/share/morse-key-express/morse.py:117 | a new window is not playing and has an empty queue |
| Session.MorseKeyExpress.TranslateText | morse-key-express/usr/share/morse-key-express/morse.py:266-273 | Interpret sets the label to the rendering and changes nothing else |
| Session.MorseKeyExpress.Play | morse-key-express/usr/share/morse-key-express/morse.py:286-292 | a request while playing, or with an empty text, changes nothing; otherwise playback starts |
| Session.MorseKeyExpress.StartPlayback | morse-key-express/usr/share/morse-key-express/morse.py:294-363 | the label is set and the guard raised; with no segment nothing starts and the queue is kept; otherwise the buffer is the text's encoding and the queue is its events |
| Session.MorseKeyExpress.OnAudioStateChanged | morse-key-express/usr/share/morse-key-express/morse.py:353-358 | only the idle state clears the guard |
| Session.MorseKeyExpress.Poll | morse-key-express/usr/share/morse-key-express/morse.py:365-372 | when not playing, nothing changes and the poll is not rescheduled; otherwise it fires exactly the due prefix, in order, every remaining event is in the future, and the queue stays what is left of the sorted schedule |
| Session.UnknownOnlyLocksPlayback | morse-key-express/usr/share/morse-key-express/morse.py:301-344 | a text of characters without table entries fails to start and leaves the guard set, so the next Play is refused |
| Session.PlaySingleE | morse-key-express/usr/share/morse-key-express/morse.py:286-372 | playing "e": the poll at 0 turns the lamp on, the poll at 0.07 s turns it off, and after the idle report the poll is not rescheduled |

## Left out

- The Qt user interface is not modelled: layout, the about dialog, image
  loading, button enabling and the lamp pixmap swaps. The poll returns the
  events it fires instead of swapping pixmaps.
- The audio device is not modelled: `QAudioOutput`, `QBuffer`, the byte
  conversion and `audio_output.stop()`. The buffer stops at the sequence of
  16-bit samples.
- The sine sample values are not modelled: they are computed in floating
  point. `ToneWave` is a parameter, and the model fixes only the sample
  counts and the silences.
- Wall-clock time and `QTimer` rescheduling are inputs. `Poll` takes the
  elapsed time in 5 ms units and returns whether it reschedules itself.
- Poll's event times are exact sums of whole units. The application sums
  floats in seconds, so a comparison exactly at an event time may round
  either way.
- Session.MorseKeyExpress.Poll: the loop runs on a local copy of the queue
  (`Drain`), which is then written back. Nothing else reads the queue during
  the loop, so the effect is that of popping in place.
- Alphabet.Upper: only ASCII letters are upper-cased. Python's `upper()`
  also maps some other characters onto table keys ("ı" to "I", "ſ" to "S",
  "ß" to "SS"); the model treats them as characters without an entry.
- Render.StripInfix: only ASCII whitespace is stripped. This cannot matter,
  because the strip is applied only to renderings, and those consist of
  dots, dashes and spaces.
- Session.MorseKeyExpress.StartPlayback is the body of Play after its two
  guards, split out as its own method. Play's contract states the whole
  operation.
- A new `stateChanged` handler is connected at every Play, and they
  accumulate. All of them do the same thing, so the model has one handler.
- `play_morse` and the interpret handler read the text from the input
  widget. Here the text is a parameter. The unused `text_to_translate`
  argument is dropped.
- Several poll chains and tick timing racing each other are not modelled:
  a chain left over from an earlier playback is one example.
- Alphabet.Lookup gives the table as ranges (letters, digits, then the
  space and the eight punctuation marks), not as one dictionary literal.
  `KnownCharacters` states which characters are keys, and `TableWellFormed`
  states the shape of the values: a single space for the space, a non-empty
  string of dots and dashes for every other key. The codes themselves appear
  only in `Lookup`.
- Session.MorseKeyExpress.StartPlayback returns `NothingToConcatenate`
  instead of raising the `ValueError` from `np.concatenate` at
  morse.py:344. What happens to the process after that exception is not
  modelled.

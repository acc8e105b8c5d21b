# Diver distress acoustic link: a Dafny model

A diver wears a watch whose app sends the diver's ID and heart rate as
underwater sound. Each character is one tone on a fixed frequency table, and
a start tone (1200 Hz) and an end tone (11000 Hz) frame every message. A
receiver on the surface computer listens through a microphone and finds the
dominant frequency in each window of audio. It rebuilds the message
`<diverId>,<bpm>`, parses it into an ID, a BPM and a status, and updates the
diver. The web dashboard's add-diver form decides which IDs exist.

This project models four parts of that system in Dafny and proves what they
promise, alone and together:

| file | models |
|---|---|
| `acoustic_server.dfy` | The receiver of `computer-app/Server/acoustic_server.py`, module `AcousticServer`. It covers the table and nearest-frequency lookup, message validation and formatting, and the ID/BPM parse with status classification. It also covers the recording state machine, with the class `AcousticServer` whose methods update its fields as `_process_audio_buffer` and `listen` do. |
| `watch_transmitter.dfy` | The watch app, `MainActivity.kt`, module `WatchTransmitter`. It covers the frequency map, the frame of tones played for a message and their timing, and the class `WatchApp`. That class has `transmitMessage`, the start/stop button and one round of the periodic job. |
| `legacy_acoustic_server.dfy` | The older receiver in `Server/acoustic_server.py`, module `LegacyAcousticServer`. It has its own table, start and end tones, the start/end state machine, and `process_message` with the `split`/`int` parse. |
| `add_diver.dfy` | The add-diver form, `AddDiver.jsx`, module `AddDiverForm`. It covers the letters-only ID rule, `handleChange` and `handleSubmit`. |
| `acoustic_link.dfy` | Results that span the parts, module `AcousticLink`. A frame played by the watch is delivered whole by the receiver, and the delivered text parses back into the diver's reading. The watch and receiver tables are identical. It also shows where the parts disagree. |
| `freq_table.dfy`, `text.dfy`, `wrappers.dfy` | Shared building blocks. A table of (character, frequency) pairs in dictionary order, with both lookups and Python's `min(..., key=abs distance)`. The string functions the code relies on: `isdigit`, `split`, `replace`, `int`, Kotlin's `filter { isDigit }` and `isBlank`. `Option` and `Result`. |

Frequencies are whole hertz, and times are whole milliseconds (the receiver's
`time.time()` and the watch's coroutine clock). Audio samples are 16-bit
integers. The FFT is not modelled. Each receiver takes it as a parameter:
`analyze` maps a window to the dominant frequency and amplitude in the start
band and in the character band. The older receiver's loop is driven by the
dominant frequency of each chunk.

The end-to-end results idealise the sound channel. Each window holds one
tone and nothing else. The band containing the tone reports it at that
tone's amplitude, and a band without it reports nothing. The start tone is
louder than the start threshold (1500), and each character tone louder than
the character threshold (500). A window is handled only once a whole
1024-sample chunk has been read, so it may come after its tone has stopped.
The first window of each tone comes within 0.3 s of the tone's start. Later
windows of the same tone come within 0.5 s of that first window. Quiet
chunks come from 0.3 s to 15 s after the tone's start. Tones start at least
0.8 s apart, because each `delay` waits at least its time and synthesis and
`write` take time too. They start at most 15 s apart. Under these conditions
the proofs show that only the first window of each tone has an effect. Later
windows fall within the 0.5 s start cooldown or the 0.5 s character guard.
The next tone's first window comes more than 0.5 s after the previous
tone's, so it falls past that guard. A quiet chunk comes at most 15 s after
the last character, so the timeout never ends a message early.

## Model

| member | source | states |
|---|---|---|
| AcousticServer.TableLiteral | computer-app/Server/acoustic_server.py:14-23 | The table is exactly the server's CHAR_TO_FREQ, entry by entry, in insertion order. |
| AcousticServer.TableLayout | computer-app/Server/acoustic_server.py:14-23 | Digits and letters lie on a 200 Hz grid from 3000 Hz ('0' at 3000 up to 'z' at 10000). '-' is at 2200 and ',' at 2000. |
| AcousticServer.FrequencySeparation | computer-app/Server/acoustic_server.py:14-30 | Any two table frequencies, and each of them and both sentinels, are at least 200 Hz apart. |
| AcousticServer.CharsUnique | computer-app/Server/acoustic_server.py:14-23 | No character appears twice in CHAR_TO_FREQ. |
| AcousticServer.FrequenciesUnique | computer-app/Server/acoustic_server.py:14-24 | No frequency appears twice, so building FREQ_TO_CHAR loses no entry. |
| AcousticServer.CharToFreqAt | computer-app/Server/acoustic_server.py:14-24 | For every entry, CHAR_TO_FREQ maps its character to its frequency and FREQ_TO_CHAR maps the frequency back. |
| AcousticServer.ClosestCharSpec | computer-app/Server/acoustic_server.py:112-132 | `_get_closest_char` answers None for no frequency. Otherwise it answers a character exactly when some table frequency lies within 150 Hz, and that character's frequency is then a nearest one. |
| AcousticServer.ClosestCharNear | computer-app/Server/acoustic_server.py:112-132 | A frequency less than 100 Hz from an entry maps to that entry's character. |
| AcousticServer.ClosestCharOfFreq | computer-app/Server/acoustic_server.py:112-132 | Round trip: the exact frequency of a table character maps back to that character. |
| AcousticServer.ClosestCharTies | computer-app/Server/acoustic_server.py:126 | `min` breaks a tie toward the earlier key: 3100 Hz reads as '0', and 2100 Hz as '-'. |
| AcousticServer.ValidMessageShape | computer-app/Server/acoustic_server.py:350-379 | `_is_valid_message` holds if and only if the message has exactly one comma and something before it, and the text after the comma is a digit string worth 40 to 200. |
| AcousticServer.ValidComposed | computer-app/Server/acoustic_server.py:350-379 | For `id,tail` with a comma-free ID: valid if and only if the ID is non-empty and the tail is a digit string worth 40 to 200. |
| AcousticServer.ProperPrefixValue | computer-app/Server/acoustic_server.py:362-369 | A proper prefix of a digit string is worth at most a tenth of the whole string. |
| AcousticServer.NoEarlyCompletion | computer-app/Server/acoustic_server.py:338-347 | While the digits of an in-range BPM arrive, no proper prefix makes the message valid, so delivery never cuts a BPM short. |
| AcousticServer.FormatMessageInsertsComma | computer-app/Server/acoustic_server.py:381-386 | `_format_message` leaves a digit-free message alone. Otherwise it inserts exactly one comma right before the first digit, and removing that comma gives the input back. |
| AcousticServer.ParseReading | computer-app/Server/acoustic_server.py:145-177 | The "No BPM found" error occurs exactly when the message holds no digit. A parsed ID holds no comma and no digit. The status is critical above 150, warning above 120, and normal otherwise. |
| AcousticServer.ParseComposed | computer-app/Server/acoustic_server.py:145-161 | `id,bpm`, with a digit-free and comma-free ID and a digit BPM, parses back into that ID and that value with its status. |
| AcousticServer.FirstDigitAt | computer-app/Server/acoustic_server.py:146-150 | The digit scan stops at the first digit. |
| AcousticServer.ParseIgnoresFormat | computer-app/Server/acoustic_server.py:156-158 | Parsing a formatted message gives the same result as parsing the original, because commas are removed from both parts. |
| AcousticServer.DigitInIdMisparsed | computer-app/Server/acoustic_server.py:145-161 | An ID that holds a digit still yields a valid message, but the parse cuts the ID at its first digit. |
| AcousticServer.DigitInIdExample | computer-app/Server/acoustic_server.py:145-177 | "a1,80" reads as diver "a" at 180 beats per minute, a critical reading. |
| AcousticServer.StartFromIdle | computer-app/Server/acoustic_server.py:291-317 | An accepted start signal while idle opens an empty message and stamps both times. The same window reads no character. |
| AcousticServer.StartWhileRecording | computer-app/Server/acoustic_server.py:291-300 | A start signal during a recording keeps the message being assembled. |
| AcousticServer.IdleAppendsNothing | computer-app/Server/acoustic_server.py:314-348 | While idle, a window appends nothing and delivers nothing. |
| AcousticServer.GuardIgnoresWindow | computer-app/Server/acoustic_server.py:314-317 | Within 0.5 s of the last character, a window changes nothing except the start cooldown. |
| AcousticServer.CharacterEffect | computer-app/Server/acoustic_server.py:319-348 | Past the guard, a new character is appended, with an automatic comma before a digit that follows a letter in a comma-free buffer. A message that this makes valid is delivered, and recording stops. A repeated character only refreshes the time of the last character. |
| AcousticServer.DebounceOnlyAtGuardBoundary | computer-app/Server/acoustic_server.py:314-325 | Because of the early return, the `> 0.5` repeat test can reject a repeated character only at exactly 0.5 s. |
| AcousticServer.TimeoutEndsRecording | computer-app/Server/acoustic_server.py:232-245 | After more than 15 s without a character, recording stops with an empty buffer. The buffer is delivered only if it is valid. |
| AcousticServer.InitialRecorderInv | computer-app/Server/acoustic_server.py:68-70 | The initial state satisfies the recorder invariant. |
| AcousticServer.OnStartBandKeepsInv | computer-app/Server/acoustic_server.py:291-303 | The start band keeps the invariant: the buffer at rest is never a valid message, an idle receiver has an empty buffer, and every delivered message is valid. |
| AcousticServer.OnCharBandKeepsInv | computer-app/Server/acoustic_server.py:314-348 | The character band keeps the invariant. |
| AcousticServer.OnSpectrumKeepsInv | computer-app/Server/acoustic_server.py:274-348 | A whole analysed window keeps the invariant. |
| AcousticServer.OnSilenceKeepsInv | computer-app/Server/acoustic_server.py:232-245 | The timeout keeps the invariant and never delivers, because a valid buffer was already delivered when it formed. |
| AcousticServer.FftWindow | computer-app/Server/acoustic_server.py:267-272 | The FFT window is FFT_WINDOW_SIZE samples long. It is the buffer padded with zeros, or else the buffer's most recent samples. |
| AcousticServer.ChunkPeak | computer-app/Server/acoustic_server.py:213 | `np.max(np.abs(chunk))` with int16 `abs`: it bounds every sample's magnitude and is reached by one of them. |
| AcousticServer.ChunkPeakIsLargestMagnitude | computer-app/Server/acoustic_server.py:213 | Without a -32768 sample, the peak is the largest true magnitude. |
| AcousticServer.FullScaleNegativeChunkIsQuiet | computer-app/Server/acoustic_server.py:213-216 | A chunk whose every sample is -32768 counts as quiet, because `np.abs` on int16 wraps. |
| AcousticServer.Take | computer-app/Server/acoustic_server.py:221 | Python's `buffer[:n]`: the first n samples, or all of them if there are fewer. |
| AcousticServer.ListenIterationBounded | computer-app/Server/acoustic_server.py:215-245 | With 1024-sample chunks the audio buffer stays below half a window. So a loud chunk either processes the whole buffer padded with zeros or only buffers, and a quiet chunk only runs the timeout. |
| AcousticServer.ListenRunBounded | computer-app/Server/acoustic_server.py:207-230 | Over any run of chunks, the audio buffer stays below half a window. |
| AcousticServer.ListenRunKeepsInv | computer-app/Server/acoustic_server.py:207-245 | The listen loop keeps the recorder invariant, so it only ever hands valid messages to `process_message`. |
| AcousticServer.AcousticServer.constructor | computer-app/Server/acoustic_server.py:68-70 | The receiver starts idle with an empty buffer, and its last-character time is the start time. |
| AcousticServer.AcousticServer.HandOff | computer-app/Server/acoustic_server.py:339-343 | Handing a message to `process_message` appends it to the delivered messages. |
| AcousticServer.AcousticServer.ProcessAudioBuffer | computer-app/Server/acoustic_server.py:259-348 | The fields change as the recording state machine prescribes for the analysed window. An empty buffer changes nothing. |
| AcousticServer.AcousticServer.HandleStartBand | computer-app/Server/acoustic_server.py:291-303 | The fields change as the start-band transition prescribes. |
| AcousticServer.AcousticServer.HandleCharBand | computer-app/Server/acoustic_server.py:314-348 | The fields change as the character-band transition prescribes: guard, debounce, automatic comma and delivery. |
| AcousticServer.AcousticServer.CheckSilence | computer-app/Server/acoustic_server.py:232-245 | The fields change as the timeout prescribes. |
| AcousticServer.AcousticServer.ListenOnce | computer-app/Server/acoustic_server.py:207-245 | One loop pass updates the fields and the audio buffer as one iteration of the loop prescribes, and the buffer stays below half a window. |
| AcousticServer.AcousticServer.Listen | computer-app/Server/acoustic_server.py:197-245 | Over a run of chunks, the fields and the audio buffer end as the loop prescribes, and the buffer stays below half a window. |
| WatchTransmitter.TableLiteral | watch-app/app/src/main/java/com/example/diversensorapp/MainActivity.kt:28-37 | The map is exactly the activity's `charToFreq`, entry by entry. |
| WatchTransmitter.SentinelsOutsideTable | watch-app/app/src/main/java/com/example/diversensorapp/MainActivity.kt:28-39 | No character tone equals the start or end frequency. |
| WatchTransmitter.MapCoverage | watch-app/app/src/main/java/com/example/diversensorapp/MainActivity.kt:28-37 | A character has a tone if and only if it is a digit, a lower-case letter, '-' or ','. |
| WatchTransmitter.TableRange | watch-app/app/src/main/java/com/example/diversensorapp/MainActivity.kt:28-37 | Every character tone lies between 2000 and 10000 Hz. |
| WatchTransmitter.SkipsUnmapped | watch-app/app/src/main/java/com/example/diversensorapp/MainActivity.kt:192-200 | A character missing from the map leaves no trace in the frame. |
| WatchTransmitter.FrameShape | watch-app/app/src/main/java/com/example/diversensorapp/MainActivity.kt:185-207 | A frame has the start tone first and the end tone last, and neither sentinel occurs in between. |
| WatchTransmitter.ScheduleConcat | watch-app/app/src/main/java/com/example/diversensorapp/MainActivity.kt:185-207 | In the nominal schedule, two runs of tones played back to back: the second run starts one 0.8 s slot per tone of the first later. |
| WatchTransmitter.MappedTonesStep | watch-app/app/src/main/java/com/example/diversensorapp/MainActivity.kt:192-200 | The `forEach` adds one tone for each mapped character and none for an unmapped one. |
| WatchTransmitter.ScheduleAppend | watch-app/app/src/main/java/com/example/diversensorapp/MainActivity.kt:192-196 | A tone played after a run starts one slot after the run's last tone. |
| WatchTransmitter.FrameSchedule | watch-app/app/src/main/java/com/example/diversensorapp/MainActivity.kt:185-207 | In the nominal schedule, the start tone plays at t0, the body from t0 + 0.8 s, and the end tone 0.8 s after the last body tone. |
| WatchTransmitter.FrameDurationMs | watch-app/app/src/main/java/com/example/diversensorapp/MainActivity.kt:185-207 | Nominally, a transmission takes 0.8 s for each of its k + 2 tones. |
| WatchTransmitter.FrameFitsPeriod | watch-app/app/src/main/java/com/example/diversensorapp/MainActivity.kt:86-93 | A transmission ends within the job's 20 s wait if and only if the message has at most 23 mapped characters. |
| WatchTransmitter.BlankDigitsAreEmpty | watch-app/app/src/main/java/com/example/diversensorapp/MainActivity.kt:72-82 | The digits-only BPM text is blank if and only if it is empty. |
| WatchTransmitter.WatchApp.constructor | watch-app/app/src/main/java/com/example/diversensorapp/MainActivity.kt:48-124 | The app starts idle: not transmitting, no job, "Status: Idle", "Start Transmission", button enabled, nothing played. The button is enabled exactly when no transmission runs (`Valid`). |
| WatchTransmitter.WatchApp.PlayToneAndWait | watch-app/app/src/main/java/com/example/diversensorapp/MainActivity.kt:186-188 | One tone plays at the coroutine's time, and that time advances by the nominal 0.3 s + 0.5 s. |
| WatchTransmitter.WatchApp.PlayBody | watch-app/app/src/main/java/com/example/diversensorapp/MainActivity.kt:192-200 | The body plays one tone per mapped character, one slot each, in order. |
| WatchTransmitter.WatchApp.PlayFrame | watch-app/app/src/main/java/com/example/diversensorapp/MainActivity.kt:185-207 | The frame of the message plays slot by slot from the given time and ends one frame duration later. |
| WatchTransmitter.WatchApp.TransmitMessage | watch-app/app/src/main/java/com/example/diversensorapp/MainActivity.kt:167-207 | While a transmission is running, it shows "Already transmitting..." and changes nothing. Otherwise it launches one: the flag is set, the status reads "Transmitting...", the button is disabled, and the frame plays slot by slot from now, ending one frame duration later. The call returns at once. |
| WatchTransmitter.WatchApp.AdvanceClock | watch-app/app/src/main/java/com/example/diversensorapp/MainActivity.kt:213-217 | Once the clock reaches the end of a running transmission, the flag is cleared, the status reads "Idle" and the button is enabled. Before that, nothing changes. |
| WatchTransmitter.WatchApp.OnTransmitButtonClick | watch-app/app/src/main/java/com/example/diversensorapp/MainActivity.kt:68-101 | With no job running, a blank ID or a BPM with no digits shows its message and starts nothing. Otherwise a job for that ID starts, with "Stop Transmission" and "Status: Transmitting...". With a job running, the job is cancelled and the UI returns to idle. |
| WatchTransmitter.WatchApp.RunJobIteration | watch-app/app/src/main/java/com/example/diversensorapp/MainActivity.kt:86-93 | One round of the job launches `id,<digits of the current heart rate>`, unless a transmission is already running, and then waits 20 s. Afterwards a transmission still runs exactly when its end lies past the 20 s. The flag, status and button read idle once it has ended. A frame longer than 20 s therefore makes the next round show "Already transmitting..." and send nothing. Without a job, nothing happens. |
| LegacyAcousticServer.TableLiteral | Server/acoustic_server.py:14-23 | The table is exactly the older server's CHAR_TO_FREQ, entry by entry. |
| LegacyAcousticServer.TableGrid | Server/acoustic_server.py:14-23 | Every frequency is a multiple of 500 between 2500 and 21000 Hz. |
| LegacyAcousticServer.CharsUnique | Server/acoustic_server.py:14-23 | No character appears twice. |
| LegacyAcousticServer.FrequenciesUnique | Server/acoustic_server.py:14-25 | No frequency appears twice. |
| LegacyAcousticServer.FrequencySeparation | Server/acoustic_server.py:14-32 | Any two table frequencies, and each of them and the sentinels, are at least 500 Hz apart. |
| LegacyAcousticServer.CharToFreqAt | Server/acoustic_server.py:14-25 | Both lookups find every entry. |
| LegacyAcousticServer.ClosestCharNear | Server/acoustic_server.py:65-77 | A frequency within 200 Hz of an entry maps to that entry's character. |
| LegacyAcousticServer.ClosestCharSpec | Server/acoustic_server.py:65-77 | For no frequency the answer is None. Otherwise the answer is a character if and only if some entry lies within 200 Hz. |
| LegacyAcousticServer.ClosestCharOfFreq | Server/acoustic_server.py:65-77 | Round trip: a character's exact frequency maps back to that character. |
| LegacyAcousticServer.StartTone | Server/acoustic_server.py:116-122 | A start tone opens an empty message when none is open, and otherwise changes nothing. |
| LegacyAcousticServer.EndTone | Server/acoustic_server.py:124-130 | An end tone closes and processes an open message, and otherwise changes nothing. |
| LegacyAcousticServer.OtherTone | Server/acoustic_server.py:132-137 | Any other chunk appends at most one character. It does so only while recording, and only a character whose frequency lies within 200 Hz. |
| LegacyAcousticServer.ProcessMessageSpec | Server/acoustic_server.py:79-106 | An empty buffer is left alone. Otherwise the buffer is always cleared, and an update is recorded if and only if the message has exactly one comma and an integer after it. |
| LegacyAcousticServer.AcceptsIdAndBpm | Server/acoustic_server.py:87-96 | `id,bpm` with a comma-free ID and a digit BPM is recorded as exactly that pair. |
| LegacyAcousticServer.RunKeepsInv | Server/acoustic_server.py:108-137 | The loop keeps the invariant that a closed receiver has an empty buffer and the buffer holds only table characters. |
| LegacyAcousticServer.LegacyServer.constructor | Server/acoustic_server.py:46-47 | The receiver starts closed with an empty buffer. |
| LegacyAcousticServer.LegacyServer.ProcessMessage | Server/acoustic_server.py:79-106 | The fields change as `process_message` prescribes, including the buffer cleared in `finally`. |
| LegacyAcousticServer.LegacyServer.ListenStep | Server/acoustic_server.py:112-137 | The fields change as one loop iteration prescribes for the chunk's dominant frequency. |
| LegacyAcousticServer.LegacyServer.Listen | Server/acoustic_server.py:108-137 | Over a run of chunks, the fields end as the loop prescribes. |
| AddDiverForm.InitialState | computer-app/diver-distress-client/src/components/AddDiver.jsx:10-22 | The form has the nine fields, all empty except status "normal", with no error. It satisfies the form invariant. |
| AddDiverForm.ValidIdHasNoDigitOrSeparator | computer-app/diver-distress-client/src/components/AddDiver.jsx:24-26 | A valid ID is non-empty and holds no digit, comma, hyphen or blank. |
| AddDiverForm.ChangeIdAccepted | computer-app/diver-distress-client/src/components/AddDiver.jsx:31-34 | An empty or valid ID replaces the old one and clears the error. Every other field stays. |
| AddDiverForm.ChangeIdRejected | computer-app/diver-distress-client/src/components/AddDiver.jsx:35-37 | An invalid ID leaves the form as it is and sets the error. |
| AddDiverForm.ChangeOtherField | computer-app/diver-distress-client/src/components/AddDiver.jsx:38-40 | Any other field takes the new value, and the error and the other fields stay. |
| AddDiverForm.SubmitSpec | computer-app/diver-distress-client/src/components/AddDiver.jsx:43-56 | Submitting posts the form if and only if its ID is valid. Otherwise it only sets the error. |
| AddDiverForm.ChangeKeepsInv | computer-app/diver-distress-client/src/components/AddDiver.jsx:28-41 | Edits keep the invariant that the ID is empty or valid. |
| AddDiverForm.SubmitKeepsInv | computer-app/diver-distress-client/src/components/AddDiver.jsx:43-56 | Submitting keeps the invariant that every posted diver has a valid ID. |
| AddDiverForm.AddDiver.constructor | computer-app/diver-distress-client/src/components/AddDiver.jsx:10-22 | The component starts in the initial form state. |
| AddDiverForm.AddDiver.HandleChange | computer-app/diver-distress-client/src/components/AddDiver.jsx:28-41 | The form data and error change as `handleChange` prescribes. |
| AddDiverForm.AddDiver.HandleSubmit | computer-app/diver-distress-client/src/components/AddDiver.jsx:43-56 | The error and the posted divers change as `handleSubmit` prescribes. |
| AcousticLink.TablesIdentical | watch-app/app/src/main/java/com/example/diversensorapp/MainActivity.kt:26-39 | The watch's map and sentinels are the receiver's, entry for entry, as the comment there demands. |
| AcousticLink.InnerTonesDecode | computer-app/Server/acoustic_server.py:14-24 | For a message the watch spells in full, the body tones read back through FREQ_TO_CHAR and `_get_closest_char` give the message, character by character. |
| AcousticLink.SilentChunk | computer-app/Server/acoustic_server.py:232-245 | A quiet chunk within 15 s of the last character, or while idle, changes nothing. |
| AcousticLink.LaterChunksIgnored | computer-app/Server/acoustic_server.py:232-317 | The first window of a slot comes within 0.3 s of the tone's start. Later windows within 0.5 s of it, even after the tone has stopped, fall within the guard and the start cooldown. Quiet chunks up to 15 s after the tone's start fall within the timeout. Neither changes the state. |
| AcousticLink.CharToneHeardOnce | computer-app/Server/acoustic_server.py:314-317 | Only the first window of a character tone acts. Every later window, within 0.5 s of the first, falls within the guard, and every quiet chunk within the timeout. |
| AcousticLink.StartToneHeardOnce | computer-app/Server/acoustic_server.py:291-317 | The start tone opens an empty message at its first window. Its later windows, within 0.5 s of the first, fall within the cooldown and the guard, and its quiet chunks within the timeout. |
| AcousticLink.EndToneIgnored | computer-app/Server/acoustic_server.py:305-317 | An idle receiver ignores every window and every quiet chunk of the end tone's slot. |
| AcousticLink.TableInCharBand | computer-app/Server/acoustic_server.py:274-288 | Every table frequency lies in the character band and outside the start band. |
| AcousticLink.CharWindow | computer-app/Server/acoustic_server.py:319-348 | A character tone louder than the character threshold (500), heard past the guard, is appended, and a message it completes is delivered. |
| AcousticLink.MessageMapped | watch-app/app/src/main/java/com/example/diversensorapp/MainActivity.kt:192-200 | The watch has a tone for every character of `id,bpm` when the ID uses lower-case letters and '-'. |
| AcousticLink.PrefixValidity | computer-app/Server/acoustic_server.py:339-347 | While `id,bpm` arrives character by character, only the whole message is valid. |
| AcousticLink.NoAutoComma | computer-app/Server/acoustic_server.py:328-330 | The receiver never adds a comma of its own to `id,bpm`. |
| AcousticLink.BodyDelivers | computer-app/Server/acoustic_server.py:319-348 | From any character tone on, with tones at least 0.8 s apart and every character tone louder than 500, the receiver completes and delivers the message, then ignores the end tone. |
| AcousticLink.FrameTones | watch-app/app/src/main/java/com/example/diversensorapp/MainActivity.kt:185-207 | Tones that play a frame in order, at least one slot apart, are the start tone, one table tone per character and the end tone. |
| AcousticLink.ScheduledFramePlays | watch-app/app/src/main/java/com/example/diversensorapp/MainActivity.kt:185-207 | The watch's nominal schedule, tones exactly 0.8 s apart, is one of the playings the end-to-end results cover. |
| AcousticLink.PlayedFrameDelivered | computer-app/Server/acoustic_server.py:232-348 | The start tone, one table tone per character of `id,bpm` and the end tone, heard in that order, are delivered as exactly that message. |
| AcousticLink.FrameDelivered | computer-app/Server/acoustic_server.py:232-348 | End to end: an idle receiver past its start cooldown hears the frame of `id,bpm`, played with tones 0.8 s to 15 s apart. The start tone is louder than 1500 and each character tone louder than 500. Each tone is analysed in one or more windows, the first within 0.3 s of its start, and quiet chunks after it run the timeout check. The receiver then delivers exactly that message, once, and is idle again. |
| AcousticLink.DeliveredReadingParses | computer-app/Server/acoustic_server.py:145-177 | The delivered message parses back into the diver's ID, their BPM and the matching status. |
| AcousticLink.JobMessageDelivered | watch-app/app/src/main/java/com/example/diversensorapp/MainActivity.kt:86-93 | The job's message, for a sendable ID and an in-range heart-rate reading, played with tones at least 0.8 s apart, is delivered whole. |
| AcousticLink.ValidIdParses | computer-app/diver-distress-client/src/components/AddDiver.jsx:24-26 | An ID the dashboard accepts parses back whole from `id,<digits>`. |
| AcousticLink.MappedTonesDropUpper | watch-app/app/src/main/java/com/example/diversensorapp/MainActivity.kt:192-200 | The watch plays the same tones for an ID as for the ID without its upper-case letters. |
| AcousticLink.UppercaseIdLosesLetters | watch-app/app/src/main/java/com/example/diversensorapp/MainActivity.kt:192-200 | For every ID, `id,<bpm>` goes out exactly as the ID without its upper-case letters would. |
| AcousticLink.UppercaseIdExample | computer-app/diver-distress-client/src/components/AddDiver.jsx:24-26 | The dashboard accepts "Ab", which goes out as "b". |
| AcousticLink.LegacyReadsZeroAsY | Server/acoustic_server.py:14-23 | The watch's '0' tone, 3000 Hz, reads as 'y' at the older receiver. |
| AcousticLink.LegacyReadsDigitsAsLetters | Server/acoustic_server.py:14-23 | Every digit the watch sends reads as a letter at the older receiver, so no heart rate survives that table. |
| AcousticLink.LegacyReadsSAsS | Server/acoustic_server.py:14-23 | The watch's 's' tone, 8600 Hz, lies 100 Hz from the older receiver's 's' and reads as 's' there, so not every watch tone is misread. |
| AcousticLink.WatchFrameRange | watch-app/app/src/main/java/com/example/diversensorapp/MainActivity.kt:28-39 | Every tone of a watch frame lies between 1200 and 11000 Hz. |
| AcousticLink.LegacyIgnoresWatchFrame | Server/acoustic_server.py:116-130 | No watch tone is the older receiver's start (21500 Hz) or end (22000 Hz) tone, so that receiver stays idle through any watch frame. |

## Left out

- The FFT, `_find_dominant_freq` and the microphone stream are left out; each receiver takes the analysis of a window as a parameter. The end band is only logged by the receiver and plays no part in the state machine.
- Sine synthesis, `AudioTrack` and `createAudioTrack` are left out. A played tone is recorded as its frequency and start time.
- The database (`DiverManager`, SQLAlchemy sessions, commit and rollback) is left out. Delivered messages and the older receiver's (ID, BPM) updates are recorded as sequences. Status classification applies to every parsed reading, whereas the source applies it only when the diver is found.
- Logging, `print`, toasts other than their text, navigation and the HTTP post are left out. A submission is recorded, not posted, and neither `parseInt(groupId)` nor a failed post is modelled.
- Threads are left out. The coroutine `transmitMessage` launches is represented by the tones it plays and the time it ends, and `AdvanceClock` runs its last lines. `isTransmitting` is set at launch rather than inside the coroutine, so two calls racing between the guard and the coroutine's first line are not captured.
- The heart-rate sensor callback and the activity lifecycle are left out. The heart-rate text is a parameter.
- Python's `time.time()` is read once per window. The receiver's several clock reads within one window are taken to be equal.
- `isdigit`, `isalpha`, Kotlin's `isDigit` and the JavaScript regular expression are limited to ASCII; `isBlank` uses Kotlin's full whitespace set. Python's `int` is modelled without surrounding whitespace or underscores.
- `_valid_bpm_time` is left out. With DIGIT_WAIT_TIME = 0 it never delays validation.
- With 1024-sample chunks the audio buffer stays below half a window (`ListenRunBounded`). The quiet branch's window processing is therefore unreachable and is not modelled inside `ListenOnce`.
- WatchTransmitter.FrameDurationMs: sample synthesis, the `write` call and late resumption of `delay` take no time on the watch side. `Schedule`, `FrameSchedule`, `ScheduleConcat`, `PlayToneAndWait`, `PlayFrame` and `TransmitMessage` therefore use the nominal 0.8 s slot, and `FrameFitsPeriod`'s 23-character bound is nominal too. Real slots run slightly longer. The end-to-end results in `AcousticLink` accept any slot from 0.8 s to 15 s.
- The end-to-end results are stated for ideal windows. Each holds one tone at a single amplitude, with no noise, no overlap between tones and no Doppler shift.
- AddDiverForm.Submit: requires the form to have an `id` field, which every reachable form has (`FormInv`). An undefined ID, on which JavaScript's regular expression tests the text "undefined", is not modelled.
- `MIN_MESSAGE_LENGTH`, `MAX_MESSAGE_LENGTH` and `_format_message`'s caller: the constants are never used, and `_format_message` has no caller in the receiver.

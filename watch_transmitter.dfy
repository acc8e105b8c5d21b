/**
  The transmitter of the acoustic link, the watch app
  (watch-app/app/src/main/java/com/example/diversensorapp/MainActivity.kt):
  the character/frequency map, the frame of tones sent for one message and
  its timing, the single-transmission guard, and the start/stop button that
  builds `<diverId>,<bpm>` messages.

  A played tone is recorded as its frequency and the millisecond at which it
  starts; sine synthesis and the audio device are not modelled.
 */
module WatchTransmitter {
  import opened Wrappers
  import opened Text
  import opened FreqTable

  /** The entry at position `i` of `charToFreq`: digits and letters on a 200 Hz grid from 3000 Hz, then '-' and ','. */
  function EntryAt(i: nat): (char, int)
    requires i < 38
  {
    if i < 10 then ((('0' as int) + i) as char, 3000 + 200 * i)
    else if i < 36 then ((('a' as int) + i - 10) as char, 3000 + 200 * i)
    else if i == 36 then ('-', 2200)
    else (',', 2000)
  }

  function Entries(): (t: Table)
    ensures |t| == 38 && forall i | 0 <= i < 38 :: t[i] == EntryAt(i)
  {
    seq(38, i requires 0 <= i < 38 => EntryAt(i))
  }

  const CHAR_TO_FREQ: Table := Entries()

  /** The map as the activity lists it. */
  lemma TableLiteral()
    ensures CHAR_TO_FREQ == [
    ('0', 3000), ('1', 3200), ('2', 3400), ('3', 3600), ('4', 3800),
    ('5', 4000), ('6', 4200), ('7', 4400), ('8', 4600), ('9', 4800),
    ('a', 5000), ('b', 5200), ('c', 5400), ('d', 5600), ('e', 5800),
    ('f', 6000), ('g', 6200), ('h', 6400), ('i', 6600), ('j', 6800),
    ('k', 7000), ('l', 7200), ('m', 7400), ('n', 7600), ('o', 7800),
    ('p', 8000), ('q', 8200), ('r', 8400), ('s', 8600), ('t', 8800),
    ('u', 9000), ('v', 9200), ('w', 9400), ('x', 9600), ('y', 9800),
    ('z', 10000), ('-', 2200), (',', 2000)
  ]
  {
  }

  const START_FREQ := 1200
  const END_FREQ := 11000
  /** `chunkDuration`: each tone lasts 0.3 s. */
  const CHUNK_MS := 300
  /** `silentDuration`: 0.5 s of silence follows every tone. */
  const SILENT_MS := 500
  /** The time from the start of one tone to the start of the next. */
  const TONE_SLOT_MS := CHUNK_MS + SILENT_MS
  /** The periodic job waits 20 s between two messages. */
  const TRANSMIT_PERIOD_MS := 20000

  const STATUS_IDLE := "Status: Idle"
  const STATUS_TRANSMITTING := "Status: Transmitting..."
  const BUTTON_START := "Start Transmission"
  const BUTTON_STOP := "Stop Transmission"

  /** `charToFreq[c]`. */
  function CharToFreq(c: char): Option<int> {
    LookupChar(CHAR_TO_FREQ, c)
  }

  /** The tones of the message body: one per character the map knows, in order; other characters are skipped. */
  function MappedTones(message: string): seq<int> {
    Encode(CHAR_TO_FREQ, message)
  }

  /** The whole frame sent for a message: start tone, body tones, end tone. */
  function Frame(message: string): seq<int> {
    [START_FREQ] + MappedTones(message) + [END_FREQ]
  }

  /** A tone played by the watch: its frequency and the time at which it starts. */
  datatype Tone = Tone(freq: int, atMs: int)

  /** The tones of `freqs` played one per 0.8 s slot from time `t0`. */
  function Schedule(freqs: seq<int>, t0: int): (s: seq<Tone>)
    ensures |s| == |freqs|
    ensures forall k | 0 <= k < |s| :: s[k] == Tone(freqs[k], t0 + TONE_SLOT_MS * k)
  {
    seq(|freqs|, k requires 0 <= k < |freqs| => Tone(freqs[k], t0 + TONE_SLOT_MS * k))
  }

  /** The message the periodic job sends: the diver ID, a comma and the digits of the heart-rate text. */
  function JobMessage(diverId: string, heartRateText: string): string {
    diverId + "," + Digits(heartRateText)
  }

  // ---------------------------------------------------------------------------
  // Properties of frames and their timing
  // ---------------------------------------------------------------------------

  /** No table frequency is a sentinel. */
  lemma SentinelsOutsideTable()
    ensures forall i | 0 <= i < |CHAR_TO_FREQ| :: CHAR_TO_FREQ[i].1 != START_FREQ && CHAR_TO_FREQ[i].1 != END_FREQ
  {
  }

  /** The map knows exactly the digits, the lower-case letters, '-' and ','. */
  lemma MapCoverage(c: char)
    ensures CharToFreq(c).Some? <==> IsDigit(c) || IsLowerLetter(c) || c == '-' || c == ','
  {
    if IsDigit(c) {
      assert CHAR_TO_FREQ[c as int - '0' as int].0 == c;
    } else if IsLowerLetter(c) {
      assert CHAR_TO_FREQ[c as int - 'a' as int + 10].0 == c;
    } else if c == '-' {
      assert CHAR_TO_FREQ[36].0 == c;
    } else if c == ',' {
      assert CHAR_TO_FREQ[37].0 == c;
    } else {
      forall i | 0 <= i < |CHAR_TO_FREQ|
        ensures CHAR_TO_FREQ[i].0 != c
      {
      }
    }
  }

  /** Every table frequency lies between 2000 and 10000 Hz. */
  lemma TableRange()
    ensures forall i | 0 <= i < |CHAR_TO_FREQ| :: 2000 <= CHAR_TO_FREQ[i].1 <= 10000
  {
  }

  /** Characters missing from the map leave no trace in the frame. */
  lemma SkipsUnmapped(a: string, c: char, b: string)
    requires CharToFreq(c).None?
    ensures Frame(a + [c] + b) == Frame(a + b)
  {
    EncodeConcat(CHAR_TO_FREQ, a + [c], b);
    EncodeConcat(CHAR_TO_FREQ, a, [c]);
    EncodeChar(CHAR_TO_FREQ, c);
    EncodeConcat(CHAR_TO_FREQ, a, b);
  }

  /**
    Every frame starts with the start tone and ends with the end tone, and
    neither sentinel occurs in between: every body tone is a table frequency.
   */
  lemma FrameShape(message: string)
    ensures var f := Frame(message);
      && |f| == |MappedTones(message)| + 2
      && f[0] == START_FREQ && f[|f| - 1] == END_FREQ
      && forall k | 1 <= k < |f| - 1 :: f[k] != START_FREQ && f[k] != END_FREQ
  {
    SentinelsOutsideTable();
    EncodeInTable(CHAR_TO_FREQ, message);
  }

  /** Playing two runs of tones back to back: the second starts one slot per tone of the first later. */
  lemma ScheduleConcat(a: seq<int>, b: seq<int>, t0: int)
    ensures Schedule(a + b, t0) == Schedule(a, t0) + Schedule(b, t0 + TONE_SLOT_MS * |a|)
  {
    var l := Schedule(a + b, t0);
    var r := Schedule(a, t0) + Schedule(b, t0 + TONE_SLOT_MS * |a|);
    forall k | 0 <= k < |l|
      ensures l[k] == r[k]
    {
      if k >= |a| {
        assert TONE_SLOT_MS * k == TONE_SLOT_MS * |a| + TONE_SLOT_MS * (k - |a|);
      }
    }
  }

  /** The body of a one-character-longer prefix: one more tone when that character is mapped. */
  lemma MappedTonesStep(message: string, i: nat)
    requires i < |message|
    ensures MappedTones(message[..i + 1]) ==
      MappedTones(message[..i]) + (if CharToFreq(message[i]).Some? then [CharToFreq(message[i]).value] else [])
  {
    assert message[..i + 1][..i] == message[..i];
    assert message[..i + 1][i] == message[i];
  }

  /** Tones played one after another: appending a frequency schedules it one slot after the last. */
  lemma ScheduleAppend(freqs: seq<int>, f: int, t0: int)
    ensures Schedule(freqs + [f], t0) == Schedule(freqs, t0) + [Tone(f, t0 + TONE_SLOT_MS * |freqs|)]
  {
  }

  /** A frame is played as its start tone, then its body one slot later, then its end tone. */
  lemma FrameSchedule(message: string, t0: int)
    ensures Schedule(Frame(message), t0) ==
      [Tone(START_FREQ, t0)]
      + Schedule(MappedTones(message), t0 + TONE_SLOT_MS)
      + [Tone(END_FREQ, t0 + TONE_SLOT_MS * (1 + |MappedTones(message)|))]
  {
    var body := MappedTones(message);
    ScheduleConcat([START_FREQ], body, t0);
    ScheduleConcat([START_FREQ] + body, [END_FREQ], t0);
    assert Schedule([START_FREQ], t0) == [Tone(START_FREQ, t0)];
    assert Schedule([END_FREQ], t0 + TONE_SLOT_MS * (1 + |body|)) == [Tone(END_FREQ, t0 + TONE_SLOT_MS * (1 + |body|))];
  }

  /** The time a transmission occupies: 0.8 s for each of its k + 2 tones. */
  function FrameDurationMs(message: string): (d: nat)
    ensures d == TONE_SLOT_MS * (|MappedTones(message)| + 2)
  {
    TONE_SLOT_MS * |Frame(message)|
  }

  /**
    A transmission ends before the job's 20 s wait does exactly when the
    message has at most 23 mapped characters.
   */
  lemma FrameFitsPeriod(message: string)
    ensures FrameDurationMs(message) <= TRANSMIT_PERIOD_MS <==> |MappedTones(message)| <= 23
  {
  }

  /** A digits-only text is blank exactly when it is empty. */
  lemma BlankDigitsAreEmpty(heartRateText: string)
    ensures IsBlank(Digits(heartRateText)) <==> Digits(heartRateText) == []
  {
    var d := Digits(heartRateText);
    if d != [] {
      assert IsDigit(d[0]) && !IsWhitespace(d[0]);
    }
  }

  // ---------------------------------------------------------------------------
  // The activity
  // ---------------------------------------------------------------------------

  /**
    The fields of the activity the transmission logic touches, with the
    tones played so far and the clock. The coroutine that `transmitMessage`
    launches is represented by the tones it plays, at the times it plays
    them, and by the time its last lines run (`transmitEndMs`).
   */
  class WatchApp {
    var isTransmitting: bool
    /** The periodic job, holding the diver ID it was started with; None for `null`. */
    var transmissionJob: Option<string>
    var statusText: string
    var buttonText: string
    var buttonEnabled: bool
    /** Every tone played so far, or scheduled by a transmission under way. */
    var played: seq<Tone>
    var clockMs: int
    /** When the transmission under way ends and clears `isTransmitting`. */
    var transmitEndMs: int

    /** The button is disabled exactly while a transmission runs, and a running transmission ends in the future. */
    ghost predicate Valid()
      reads this
    {
      buttonEnabled == !isTransmitting && (isTransmitting ==> clockMs < transmitEndMs)
    }

    constructor (now: int)
      ensures !isTransmitting && transmissionJob.None?
      ensures statusText == STATUS_IDLE && buttonText == BUTTON_START && buttonEnabled
      ensures played == [] && clockMs == now
      ensures Valid()
    {
      isTransmitting := false;
      transmissionJob := None;
      statusText := STATUS_IDLE;
      buttonText := BUTTON_START;
      buttonEnabled := true;
      played := [];
      clockMs := now;
      transmitEndMs := now;
    }

    /** `playTone` at coroutine time `t` followed by the two delays: one tone in one slot. */
    method PlayToneAndWait(freq: int, t: int) returns (next: int)
      modifies this`played
      ensures played == old(played) + [Tone(freq, t)]
      ensures next == t + TONE_SLOT_MS
    {
      played := played + [Tone(freq, t)];
      next := t + CHUNK_MS;
      next := next + SILENT_MS;
    }

    /** The `forEach` over the message from time `t0`: one tone per mapped character, unmapped ones skipped. */
    method PlayBody(message: string, t0: int) returns (next: int)
      modifies this`played
      ensures played == old(played) + Schedule(MappedTones(message), t0)
      ensures next == t0 + TONE_SLOT_MS * |MappedTones(message)|
    {
      next := t0;
      var i := 0;
      while i < |message|
        invariant 0 <= i <= |message|
        invariant played == old(played) + Schedule(MappedTones(message[..i]), t0)
        invariant next == t0 + TONE_SLOT_MS * |MappedTones(message[..i])|
      {
        MappedTonesStep(message, i);
        var sent := MappedTones(message[..i]);
        var freq := CharToFreq(message[i]);
        if freq.Some? {
          ScheduleAppend(sent, freq.value, t0);
          next := PlayToneAndWait(freq.value, next);
          assert MappedTones(message[..i + 1]) == sent + [freq.value];
        } else {
          assert MappedTones(message[..i + 1]) == sent;
        }
        i := i + 1;
      }
      assert message[..i] == message;
    }

    /** The tones the coroutine of `transmitMessage` plays from time `t0`: start tone, mapped characters, end tone. */
    method PlayFrame(message: string, t0: int) returns (next: int)
      modifies this`played
      ensures played == old(played) + Schedule(Frame(message), t0)
      ensures next == t0 + FrameDurationMs(message)
    {
      FrameSchedule(message, t0);
      next := PlayToneAndWait(START_FREQ, t0);
      next := PlayBody(message, next);
      next := PlayToneAndWait(END_FREQ, next);
    }

    /**
      `transmitMessage`: while a transmission is under way it plays nothing;
      otherwise it launches one, which sets the flag, disables the button and
      plays the frame of `message` one tone per slot from now. The call
      returns at once; the transmission ends at `transmitEndMs`.
     */
    method TransmitMessage(message: string) returns (toast: Option<string>)
      requires Valid()
      modifies this`isTransmitting, this`statusText, this`buttonEnabled, this`played, this`transmitEndMs
      ensures Valid()
      ensures old(isTransmitting) ==>
        && toast == Some("Already transmitting...")
        && played == old(played) && isTransmitting && transmitEndMs == old(transmitEndMs)
        && statusText == old(statusText) && buttonEnabled == old(buttonEnabled)
      ensures !old(isTransmitting) ==>
        && toast.None?
        && played == old(played) + Schedule(Frame(message), clockMs)
        && transmitEndMs == clockMs + FrameDurationMs(message)
        && isTransmitting && statusText == STATUS_TRANSMITTING && !buttonEnabled
    {
      if isTransmitting {
        return Some("Already transmitting...");
      }
      toast := None;
      isTransmitting := true;
      statusText := STATUS_TRANSMITTING;
      buttonEnabled := false;
      transmitEndMs := PlayFrame(message, clockMs);
    }

    /**
      Time passes until `toMs`. A transmission that has ended by then has run
      its last lines: the flag is cleared, the status reads idle and the
      button is enabled again.
     */
    method AdvanceClock(toMs: int)
      requires Valid()
      modifies this`clockMs, this`isTransmitting, this`statusText, this`buttonEnabled
      ensures Valid()
      ensures clockMs == toMs
      ensures old(isTransmitting) && transmitEndMs <= toMs ==>
        !isTransmitting && statusText == STATUS_IDLE && buttonEnabled
      ensures !(old(isTransmitting) && transmitEndMs <= toMs) ==>
        isTransmitting == old(isTransmitting) && statusText == old(statusText) && buttonEnabled == old(buttonEnabled)
    {
      clockMs := toMs;
      if isTransmitting && transmitEndMs <= toMs {
        isTransmitting := false;
        statusText := STATUS_IDLE;
        buttonEnabled := true;
      }
    }

    /**
      The transmit button's click handler. With no job running it starts one
      unless the diver ID is blank or the heart-rate text holds no digit;
      with a job running it cancels it.
     */
    method OnTransmitButtonClick(diverIdText: string, heartRateText: string) returns (toast: Option<string>)
      modifies this`transmissionJob, this`statusText, this`buttonText
      ensures old(transmissionJob).None? && IsBlank(diverIdText) ==>
        && toast == Some("Please enter Diver ID") && transmissionJob.None?
        && statusText == old(statusText) && buttonText == old(buttonText)
      ensures old(transmissionJob).None? && !IsBlank(diverIdText) && Digits(heartRateText) == [] ==>
        && toast == Some("Waiting for BPM data") && transmissionJob.None?
        && statusText == old(statusText) && buttonText == old(buttonText)
      ensures old(transmissionJob).None? && !IsBlank(diverIdText) && Digits(heartRateText) != [] ==>
        && toast.None? && transmissionJob == Some(diverIdText)
        && statusText == STATUS_TRANSMITTING && buttonText == BUTTON_STOP
      ensures old(transmissionJob).Some? ==>
        && toast.None? && transmissionJob.None?
        && statusText == STATUS_IDLE && buttonText == BUTTON_START
    {
      toast := None;
      if transmissionJob.None? {
        var diverId := diverIdText;
        var bpmText := Digits(heartRateText);
        if IsBlank(diverId) {
          return Some("Please enter Diver ID");
        }
        BlankDigitsAreEmpty(heartRateText);
        if IsBlank(bpmText) {
          return Some("Waiting for BPM data");
        }
        buttonText := BUTTON_STOP;
        statusText := STATUS_TRANSMITTING;
        transmissionJob := Some(diverId);
      } else {
        transmissionJob := None;
        buttonText := BUTTON_START;
        statusText := STATUS_IDLE;
      }
    }

    /**
      One round of the periodic job: ask to send `diverId,<digits of the
      current heart-rate text>` and wait 20 s from that moment. The request
      is refused while an earlier transmission still runs, which happens
      when that frame outlasted the wait. Without a job nothing happens.
     */
    method RunJobIteration(heartRateText: string) returns (toast: Option<string>)
      requires Valid()
      modifies this`isTransmitting, this`statusText, this`buttonEnabled, this`played, this`clockMs, this`transmitEndMs
      ensures Valid()
      ensures transmissionJob.None? ==>
        && toast.None? && played == old(played) && clockMs == old(clockMs)
        && isTransmitting == old(isTransmitting) && transmitEndMs == old(transmitEndMs)
        && statusText == old(statusText) && buttonEnabled == old(buttonEnabled)
      ensures transmissionJob.Some? ==>
        var sent := !old(isTransmitting);
        var message := JobMessage(transmissionJob.value, heartRateText);
        && toast == (if sent then None else Some("Already transmitting..."))
        && played == old(played) + (if sent then Schedule(Frame(message), old(clockMs)) else [])
        && transmitEndMs == (if sent then old(clockMs) + FrameDurationMs(message) else old(transmitEndMs))
        && clockMs == old(clockMs) + TRANSMIT_PERIOD_MS
        && isTransmitting == (clockMs < transmitEndMs)
        && statusText == (if !isTransmitting then STATUS_IDLE else if sent then STATUS_TRANSMITTING else old(statusText))
    {
      toast := None;
      if transmissionJob.Some? {
        var t0 := clockMs;
        var currentBpm := Digits(heartRateText);
        var message := transmissionJob.value + "," + currentBpm;
        toast := TransmitMessage(message);
        AdvanceClock(t0 + TRANSMIT_PERIOD_MS);
      }
    }
  }
}

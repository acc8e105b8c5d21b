/**
  The receiver of the acoustic link (computer-app/Server/acoustic_server.py):
  the character/frequency table, nearest-frequency lookup, message validation,
  the ID/BPM parse with status classification, and the recording state machine
  driven by the listen loop.

  Frequencies are whole hertz, times are milliseconds, audio samples are
  16-bit integers. The FFT is an oracle `analyze` from the analysed window to
  the dominant frequency and amplitude in the start band and in the
  character band.
 */
module AcousticServer {
  import opened Wrappers
  import opened Text
  import opened FreqTable

  // ---------------------------------------------------------------------------
  // Protocol settings
  // ---------------------------------------------------------------------------

  /** Entry `i` of CHAR_TO_FREQ, in the dictionary's insertion order. */
  function EntryAt(i: nat): (char, int)
    requires i < 38
  {
    if i < 10 then ((('0' as int) + i) as char, 3000 + 200 * i)
    else if i < 36 then ((('a' as int) + i - 10) as char, 3000 + 200 * i)
    else if i == 36 then ('-', 2200)
    else (',', 2000)
  }

  function Entries(): (t: Table)
    ensures |t| == 38 && forall i | 0 <= i < 38 :: t[i] == EntryAt(i)
  {
    seq(38, i requires 0 <= i < 38 => EntryAt(i))
  }

  const CHAR_TO_FREQ: Table := Entries()

  /** The dictionary as the server lists it. */
  lemma TableLiteral()
    ensures CHAR_TO_FREQ == [
      ('0', 3000), ('1', 3200), ('2', 3400), ('3', 3600), ('4', 3800),
      ('5', 4000), ('6', 4200), ('7', 4400), ('8', 4600), ('9', 4800),
      ('a', 5000), ('b', 5200), ('c', 5400), ('d', 5600), ('e', 5800),
      ('f', 6000), ('g', 6200), ('h', 6400), ('i', 6600), ('j', 6800),
      ('k', 7000), ('l', 7200), ('m', 7400), ('n', 7600), ('o', 7800),
      ('p', 8000), ('q', 8200), ('r', 8400), ('s', 8600), ('t', 8800),
      ('u', 9000), ('v', 9200), ('w', 9400), ('x', 9600), ('y', 9800),
      ('z', 10000), ('-', 2200), (',', 2000)
    ]
  {
  }

  const START_FREQ := 1200
  const END_FREQ := 11000
  const RATE := 44100
  const BUFFER_CHUNK_SIZE := 1024
  /** int(0.25 * RATE) */
  const FFT_WINDOW_SIZE := 11025
  const MAX_SILENT_TIME_MS := 15000
  const CHAR_THRESHOLD := 500
  const START_END_THRESHOLD := 1500
  const SIGNAL_STRENGTH_SENSITIVITY_THRESHOLD := 100
  /** Largest distance at which a frequency still maps to a character. */
  const CHAR_TOLERANCE := 150
  /** Cooldown between two accepted start signals. */
  const START_COOLDOWN_MS := 500
  /** Quiet time after the last character (or the start) before the next one is read. */
  const CHAR_GUARD_MS := 500
  /** Lower and upper bound of an acceptable BPM in a complete message. */
  const MIN_BPM := 40
  const MAX_BPM := 200

  /** The keys of FREQ_TO_CHAR, in iteration order. */
  function Freqs(): seq<int> {
    FreqsOf(CHAR_TO_FREQ)
  }

  /** `CHAR_TO_FREQ.get(c)`: the first entry for `c`. */
  function CharToFreq(c: char): Option<int> {
    LookupChar(CHAR_TO_FREQ, c)
  }

  /**
    `FREQ_TO_CHAR.get(f)` for FREQ_TO_CHAR = {v: k for k, v in CHAR_TO_FREQ.items()}:
    a later entry with the same frequency overwrites an earlier one.
   */
  function FreqToChar(f: int): Option<char> {
    LookupFreq(CHAR_TO_FREQ, f)
  }

  /** `_get_closest_char`. */
  function ClosestChar(freq: Option<int>): Option<char> {
    match freq
    case None => None
    case Some(f) =>
      var k := Freqs()[Nearest(Freqs(), f)];
      if Dist(k, f) > CHAR_TOLERANCE then None else FreqToChar(k)
  }

  // ---------------------------------------------------------------------------
  // Properties of the table
  // ---------------------------------------------------------------------------

  /** The layout of the table: digits and letters on a 200 Hz grid from 3000 Hz, then '-' and ','. */
  lemma TableLayout()
    ensures |CHAR_TO_FREQ| == 38
    ensures forall i | 0 <= i < 10 :: CHAR_TO_FREQ[i].0 == (('0' as int) + i) as char
    ensures forall i | 10 <= i < 36 :: CHAR_TO_FREQ[i].0 == (('a' as int) + i - 10) as char
    ensures CHAR_TO_FREQ[36].0 == '-' && CHAR_TO_FREQ[37].0 == ','
    ensures forall i | 0 <= i < 36 :: CHAR_TO_FREQ[i].1 == 3000 + 200 * i
    ensures CHAR_TO_FREQ[36].1 == 2200 && CHAR_TO_FREQ[37].1 == 2000
  {
  }

  /** The 38 table frequencies and both sentinels are pairwise at least 200 Hz apart. */
  lemma FrequencySeparation()
    ensures forall i, j | 0 <= i < j < |Freqs()| :: Dist(Freqs()[i], Freqs()[j]) >= 200
    ensures forall i | 0 <= i < |Freqs()| :: Dist(Freqs()[i], START_FREQ) >= 200 && Dist(Freqs()[i], END_FREQ) >= 200
    ensures Dist(START_FREQ, END_FREQ) >= 200
  {
    TableLayout();
  }

  /** No character occurs twice in the table. */
  lemma CharsUnique()
    ensures forall i, j | 0 <= i < j < |CHAR_TO_FREQ| :: CHAR_TO_FREQ[i].0 != CHAR_TO_FREQ[j].0
  {
  }

  /** No frequency occurs twice in the table. */
  lemma FrequenciesUnique()
    ensures forall i, j | 0 <= i < j < |CHAR_TO_FREQ| :: CHAR_TO_FREQ[i].1 != CHAR_TO_FREQ[j].1
  {
  }

  /** Each table entry is found by both lookups: FREQ_TO_CHAR[CHAR_TO_FREQ[c]] == c. */
  lemma CharToFreqAt(i: nat)
    requires i < |CHAR_TO_FREQ|
    ensures CharToFreq(CHAR_TO_FREQ[i].0) == Some(CHAR_TO_FREQ[i].1)
    ensures FreqToChar(CHAR_TO_FREQ[i].1) == Some(CHAR_TO_FREQ[i].0)
  {
    CharsUnique();
    FrequenciesUnique();
    LookupAt(CHAR_TO_FREQ, i);
  }

  /**
    `_get_closest_char` answers None for no frequency, and otherwise a character
    exactly when some table frequency lies within 150 Hz; that character's
    frequency is then a nearest one.
   */
  lemma ClosestCharSpec(freq: Option<int>)
    ensures freq.None? ==> ClosestChar(freq).None?
    ensures freq.Some? ==>
      (ClosestChar(freq).Some? <==> exists i | 0 <= i < |Freqs()| :: Dist(Freqs()[i], freq.value) <= CHAR_TOLERANCE)
    ensures ClosestChar(freq).Some? ==>
      && freq.Some?
      && CharToFreq(ClosestChar(freq).value).Some?
      && Dist(CharToFreq(ClosestChar(freq).value).value, freq.value) <= CHAR_TOLERANCE
      && forall j | 0 <= j < |Freqs()| :: Dist(CharToFreq(ClosestChar(freq).value).value, freq.value) <= Dist(Freqs()[j], freq.value)
  {
    if freq.Some? {
      var f := freq.value;
      var n := Nearest(Freqs(), f);
      if Dist(Freqs()[n], f) <= CHAR_TOLERANCE {
        CharToFreqAt(n);
      }
    }
  }

  /** A frequency less than 100 Hz from a table entry maps to that entry's character. */
  lemma ClosestCharNear(i: nat, f: int)
    requires i < |CHAR_TO_FREQ| && Dist(CHAR_TO_FREQ[i].1, f) < 100
    ensures ClosestChar(Some(f)) == Some(CHAR_TO_FREQ[i].0)
  {
    FrequencySeparation();
    forall j | 0 <= j < |Freqs()| && j != i
      ensures Dist(Freqs()[i], Freqs()[j]) >= 200
    {
      if j < i {
        assert Dist(Freqs()[j], Freqs()[i]) >= 200;
      }
    }
    NearestWithin(Freqs(), i, f, 200);
    CharToFreqAt(i);
  }

  /** Round trip of the table: the exact frequency of character `c` maps back to `c`. */
  lemma ClosestCharOfFreq(c: char)
    requires CharToFreq(c).Some?
    ensures ClosestChar(CharToFreq(c)) == Some(c)
  {
    var i :| 0 <= i < |CHAR_TO_FREQ| && CHAR_TO_FREQ[i] == (c, CharToFreq(c).value);
    ClosestCharNear(i, CHAR_TO_FREQ[i].1);
  }

  /**
    Ties go to the earlier key: 3100 Hz is 100 Hz from both '0' and '1' and
    yields '0'; 2100 Hz is 100 Hz from both '-' and ',' and yields '-'.
   */
  lemma ClosestCharTies()
    ensures ClosestChar(Some(3100)) == Some('0')
    ensures ClosestChar(Some(2100)) == Some('-')
  {
    TableLayout();
    var n := Nearest(Freqs(), 3100);
    assert Dist(Freqs()[n], 3100) <= Dist(Freqs()[0], 3100);
    assert n == 0;
    CharToFreqAt(0);
    var m := Nearest(Freqs(), 2100);
    assert Dist(Freqs()[m], 2100) <= Dist(Freqs()[36], 2100);
    assert m == 36;
    CharToFreqAt(36);
  }

  // ---------------------------------------------------------------------------
  // Message validation, formatting and parsing
  // ---------------------------------------------------------------------------

  /**
    `_is_valid_message`. With DIGIT_WAIT_TIME = 0 the `_valid_bpm_time`
    bookkeeping always lets an in-range BPM through at once.
   */
  predicate IsValidMessage(m: string) {
    if ',' !in m then false
    else
      var parts := Split(m, ',');
      if |parts| != 2 || parts[0] == [] || parts[1] == [] then false
      else if !IsDigitString(parts[1]) then false
      else
        var bpm := DigitsValue(parts[1]);
        if bpm > MAX_BPM then false
        else bpm >= MIN_BPM
  }

  /**
    A message is valid exactly when it has one comma, something before it,
    and a digit string worth 40..200 after it.
   */
  lemma ValidMessageShape(m: string)
    ensures IsValidMessage(m) <==>
      && Count(m, ',') == 1
      && var i := IndexOf(m, ',').value;
         i > 0 && IsDigitString(m[i + 1..]) && MIN_BPM <= DigitsValue(m[i + 1..]) <= MAX_BPM
  {
    if Count(m, ',') == 1 {
      var i := IndexOf(m, ',').value;
      CountSplitAt(m, ',', i);
      SplitOnce(m, ',', i);
    }
  }

  /** An ID without a comma, a comma and a tail: valid exactly when the ID is non-empty and the tail an in-range digit string. */
  lemma ValidComposed(id: string, tail: string)
    requires ',' !in id
    ensures IsValidMessage(id + "," + tail) <==>
      id != [] && IsDigitString(tail) && MIN_BPM <= DigitsValue(tail) <= MAX_BPM
  {
    var m := id + "," + tail;
    assert m[|id|] == ',' && m[..|id|] == id && m[|id| + 1..] == tail;
    assert IndexOf(m, ',') == Some(|id|);
    CountSplitAt(m, ',', |id|);
    ValidMessageShape(m);
    if IsDigitString(tail) {
      assert ',' !in tail by { assert !IsDigit(','); }
    }
  }

  lemma {:induction false} PrefixValueAtMost(d: string, j: nat)
    requires AllDigits(d) && j <= |d|
    ensures DigitsValue(d[..j]) <= DigitsValue(d)
    decreases |d|
  {
    if j < |d| {
      var p := d[..|d| - 1];
      assert d[..j] == p[..j];
      PrefixValueAtMost(p, j);
    } else {
      assert d[..j] == d;
    }
  }

  /** A proper prefix of a digit string is worth at most a tenth of it. */
  lemma ProperPrefixValue(d: string, j: nat)
    requires AllDigits(d) && j < |d|
    ensures 10 * DigitsValue(d[..j]) <= DigitsValue(d)
  {
    var p := d[..|d| - 1];
    assert d[..j] == p[..j];
    PrefixValueAtMost(p, j);
  }

  /**
    No proper prefix of an in-range BPM completes a message: while the
    digits of a BPM in 40..200 arrive one by one, the message becomes valid
    only with the last digit, so early completion never truncates it.
   */
  lemma NoEarlyCompletion(id: string, bpm: string, j: nat)
    requires ',' !in id
    requires IsDigitString(bpm) && MIN_BPM <= DigitsValue(bpm) <= MAX_BPM
    requires j < |bpm|
    ensures !IsValidMessage(id + "," + bpm[..j])
  {
    ProperPrefixValue(bpm, j);
    ValidComposed(id, bpm[..j]);
  }

  /** `_format_message`: a comma in front of the first digit. */
  function FormatMessage(message: string): string {
    match FirstDigit(message)
    case None => message
    case Some(i) => message[..i] + "," + message[i..]
  }

  /**
    Formatting inserts exactly one comma, right before the first digit, and
    leaves a digit-free message alone; deleting that comma gives the input back.
   */
  lemma FormatMessageInsertsComma(message: string)
    ensures AllNonDigits(message) ==> FormatMessage(message) == message
    ensures !AllNonDigits(message) ==>
      var r := FormatMessage(message);
      var i := FirstDigit(message).value;
      && |r| == |message| + 1
      && r[i] == ',' && IsDigit(r[i + 1])
      && AllNonDigits(r[..i])
      && r[..i] + r[i + 1..] == message
      && Count(r, ',') == Count(message, ',') + 1
  {
    if !AllNonDigits(message) {
      var i := FirstDigit(message).value;
      var r := FormatMessage(message);
      var head, tail := message[..i], message[i..];
      assert r == head + ("," + tail);
      assert r[..i] == head && r[i] == ',' && r[i + 1..] == tail;
      assert head + tail == message;
      assert ("," + tail)[1..] == tail;
      CountConcat(head, "," + tail, ',');
      CountConcat(head, tail, ',');
    }
  }

  datatype Status = Normal | Warning | Critical

  /** The diver's status for a BPM: above 150 critical, above 120 warning, otherwise normal. */
  function Classify(bpm: int): Status {
    if bpm > 150 then Critical else if bpm > 120 then Warning else Normal
  }

  datatype Reading = Reading(diverId: string, bpm: nat, status: Status)

  datatype ParseError = NoBpm | InvalidBpm(bpmText: string)

  /**
    The parse and classification part of `process_message`: the ID is what
    precedes the first digit, the BPM the rest, both with commas removed.
   */
  function ParseReading(message: string): (r: Result<Reading, ParseError>)
    ensures r == Failure(NoBpm) <==> AllNonDigits(message)
    ensures r.Success? ==>
      && ',' !in r.value.diverId && AllNonDigits(r.value.diverId)
      && (r.value.status == Critical <==> r.value.bpm > 150)
      && (r.value.status == Warning <==> 120 < r.value.bpm <= 150)
      && (r.value.status == Normal <==> r.value.bpm <= 120)
  {
    match FirstDigit(message)
    case None => Failure(NoBpm)
    case Some(i) => ParseOnce(Remove(message[..i], ','), Remove(message[i..], ','))
  }

  /** The reading for an ID and a BPM text, both with commas already removed. */
  function ParseOnce(diverId: string, bpmText: string): Result<Reading, ParseError> {
    if IsDigitString(bpmText) then
      var bpm := DigitsValue(bpmText);
      Success(Reading(diverId, bpm, Classify(bpm)))
    else
      Failure(InvalidBpm(bpmText))
  }

  /** An ID with no digit or comma, a comma and a digit string parse back into that ID and value. */
  lemma ParseComposed(id: string, bpm: string)
    requires AllNonDigits(id) && ',' !in id && IsDigitString(bpm)
    ensures ParseReading(id + "," + bpm) ==
      Success(Reading(id, DigitsValue(bpm), Classify(DigitsValue(bpm))))
  {
    var m := id + "," + bpm;
    var k := |id| + 1;
    assert m[..k] == id + "," && m[k..] == bpm;
    assert AllNonDigits(m[..k]);
    FirstDigitAt(m, k);
    RemoveConcat(id, ",", ',');
    assert Remove(",", ',') == [];
    assert Remove(m[..k], ',') == id;
    assert ',' !in bpm by { assert !IsDigit(','); }
    assert Remove(m[k..], ',') == bpm;
  }

  /** If the first `k` characters hold no digit and the next one is a digit, it is the first digit. */
  lemma FirstDigitAt(m: string, k: nat)
    requires k < |m| && AllNonDigits(m[..k]) && IsDigit(m[k])
    ensures FirstDigit(m) == Some(k)
  {
    assert m[k] in m;
  }

  /** The parse ignores the comma `_format_message` inserts. */
  lemma ParseIgnoresFormat(message: string)
    ensures ParseReading(FormatMessage(message)) == ParseReading(message)
  {
    if !AllNonDigits(message) {
      var i := FirstDigit(message).value;
      var r := FormatMessage(message);
      var head, tail := message[..i], message[i..];
      assert r == head + ("," + tail);
      assert r[..i + 1] == head + "," && r[i + 1..] == tail;
      assert AllNonDigits(r[..i + 1]);
      FirstDigitAt(r, i + 1);
      RemoveConcat(head, ",", ',');
      assert Remove(",", ',') == [];
      assert Remove(r[..i + 1], ',') == Remove(head, ',');
      assert ParseReading(r) == ParseOnce(Remove(head, ','), Remove(tail, ','));
      assert ParseReading(message) == ParseOnce(Remove(head, ','), Remove(tail, ','));
    } else {
      FormatMessageInsertsComma(message);
    }
  }

  /**
    An ID holding a digit is misread: the message still passes
    `_is_valid_message` (for instance "a1,80"), but the parse cuts the ID at
    its first digit (giving diver "a" with BPM 180). IDs of letters only, the
    dashboard's rule, rule this out.
   */
  lemma DigitInIdMisparsed(id: string, bpm: string)
    requires id != [] && ',' !in id && !AllNonDigits(id)
    requires IsDigitString(bpm) && MIN_BPM <= DigitsValue(bpm) <= MAX_BPM
    ensures IsValidMessage(id + "," + bpm)
    ensures var r := ParseReading(id + "," + bpm);
      r.Success? ==> r.value.diverId == id[..FirstDigit(id).value] && r.value.diverId != id
  {
    ValidComposed(id, bpm);
    var j := FirstDigit(id).value;
    var m := id + "," + bpm;
    assert m[..j] == id[..j] && m[j] == id[j];
    FirstDigitAt(m, j);
    assert ',' !in id[..j] by { assert forall x | x in id[..j] :: x in id; }
  }

  /** The ID "a1" with the heart rate 80 reads as diver "a" at 180 beats per minute, a critical reading. */
  lemma DigitInIdExample()
    ensures ParseReading("a1,80") == Success(Reading("a", 180, Critical))
  {
    var m := "a1,80";
    assert m[..1] == "a" && m[1..] == "1,80";
    assert AllNonDigits(m[..1]) && IsDigit(m[1]);
    FirstDigitAt(m, 1);
    ExampleParts();
  }

  /** The two halves of "a1,80" without their commas, and the value of "180". */
  lemma ExampleParts()
    ensures Remove("a", ',') == "a" && Remove("1,80", ',') == "180"
    ensures IsDigitString("180") && DigitsValue("180") == 180
  {
    assert "1,80"[1..] == ",80" && ",80"[1..] == "80";
    assert "180"[..2] == "18" && "18"[..1] == "1" && "1"[..0] == [];
  }

  // ---------------------------------------------------------------------------
  // Recording state machine (`_process_audio_buffer` and the timeout in `listen`)
  // ---------------------------------------------------------------------------

  newtype int16 = x: int | -32768 <= x < 32768

  /** The dominant frequency of one band of a window and its amplitude. */
  datatype Peak = Peak(freq: Option<int>, amp: int)

  /** The analysis of one window: the start band (1050..1350 Hz) and the character band (1900..10100 Hz). */
  datatype Spectrum = Spectrum(start: Peak, chars: Peak)

  /**
    The receiver's recording state: `is_recording`, `message_buffer`,
    `last_char_time`, `_last_start_signal_time` (None while unset), and the
    messages handed to `process_message` so far.
   */
  datatype Recorder = Recorder(
    recording: bool,
    buffer: string,
    lastCharTime: int,
    lastStartSignal: Option<int>,
    delivered: seq<string>)

  function InitialRecorder(now: int): Recorder {
    Recorder(false, [], now, None, [])
  }

  predicate StartAccepted(s: Recorder, sp: Spectrum, now: int) {
    && sp.start.freq.Some? && sp.start.amp > START_END_THRESHOLD
    && (s.lastStartSignal.None? || now - s.lastStartSignal.value > START_COOLDOWN_MS)
  }

  /** The start-band half of a window. */
  function OnStartBand(s: Recorder, sp: Spectrum, now: int): Recorder {
    if !StartAccepted(s, sp, now) then s
    else if s.recording then s.(lastStartSignal := Some(now))
    else s.(lastStartSignal := Some(now), recording := true, buffer := [], lastCharTime := now)
  }

  /** The character a strong enough character-band peak maps to. */
  function DetectedChar(sp: Spectrum): Option<char> {
    if sp.chars.freq.Some? && sp.chars.amp > CHAR_THRESHOLD then ClosestChar(sp.chars.freq) else None
  }

  /** A digit right after a letter in a buffer without a comma gets a comma in front. */
  predicate AutoComma(buffer: string, c: char) {
    IsDigit(c) && ',' !in buffer && |buffer| > 0 && IsAsciiLetter(Last(buffer))
  }

  function Appended(buffer: string, c: char): string {
    (if AutoComma(buffer, c) then buffer + "," else buffer) + [c]
  }

  /** The debounce test: a character equal to the last one counts only after 0.5 s. */
  predicate IsNewChar(s: Recorder, c: char, now: int) {
    s.buffer == [] || Last(s.buffer) != c || now - s.lastCharTime > CHAR_GUARD_MS
  }

  /** The character-band half of a window, run after the start-band half. */
  function OnCharBand(s: Recorder, sp: Spectrum, now: int): Recorder {
    if !s.recording || now - s.lastCharTime < CHAR_GUARD_MS then s
    else match DetectedChar(sp)
      case None => s
      case Some(c) =>
        if !IsNewChar(s, c, now) then s.(lastCharTime := now)
        else
          var b := Appended(s.buffer, c);
          if IsValidMessage(b) then s.(recording := false, buffer := [], delivered := s.delivered + [b])
          else s.(buffer := b, lastCharTime := now)
  }

  function OnSpectrum(s: Recorder, sp: Spectrum, now: int): Recorder {
    OnCharBand(OnStartBand(s, sp, now), sp, now)
  }

  function Zeros(n: nat): (z: seq<int16>)
    ensures |z| == n && forall k | 0 <= k < n :: z[k] == 0
  {
    seq(n, _ => 0)
  }

  /** The window handed to the FFT: the buffer zero-padded to FFT_WINDOW_SIZE, or its most recent FFT_WINDOW_SIZE samples. */
  function FftWindow(b: seq<int16>): (w: seq<int16>)
    ensures |w| == FFT_WINDOW_SIZE
    ensures |b| < FFT_WINDOW_SIZE ==> w[..|b|] == b && forall k | |b| <= k < |w| :: w[k] == 0
    ensures |b| >= FFT_WINDOW_SIZE ==> w == b[|b| - FFT_WINDOW_SIZE..]
  {
    if |b| < FFT_WINDOW_SIZE then b + Zeros(FFT_WINDOW_SIZE - |b|) else b[|b| - FFT_WINDOW_SIZE..]
  }

  /** `_process_audio_buffer` on the recording state. */
  function OnWindow(s: Recorder, b: seq<int16>, now: int, analyze: seq<int16> -> Spectrum): Recorder {
    if |b| == 0 then s else OnSpectrum(s, analyze(FftWindow(b)), now)
  }

  /** The timeout of the listen loop's quiet branch. */
  function OnSilence(s: Recorder, now: int): Recorder {
    if s.recording && now - s.lastCharTime > MAX_SILENT_TIME_MS then
      if IsValidMessage(s.buffer) then s.(recording := false, buffer := [], delivered := s.delivered + [s.buffer])
      else s.(recording := false, buffer := [])
    else s
  }

  /** A start signal while idle opens an empty message and reads no character in the same window. */
  lemma StartFromIdle(s: Recorder, sp: Spectrum, now: int)
    requires !s.recording && StartAccepted(s, sp, now)
    ensures var r := OnSpectrum(s, sp, now);
      r.recording && r.buffer == [] && r.lastCharTime == now && r.lastStartSignal == Some(now)
      && r.delivered == s.delivered
  {
  }

  /** A start signal while recording keeps the message being assembled. */
  lemma StartWhileRecording(s: Recorder, sp: Spectrum, now: int)
    requires s.recording
    ensures var r := OnStartBand(s, sp, now);
      r.recording && r.buffer == s.buffer && r.lastCharTime == s.lastCharTime && r.delivered == s.delivered
  {
  }

  /** While idle a window appends nothing and delivers nothing. */
  lemma IdleAppendsNothing(s: Recorder, sp: Spectrum, now: int)
    requires !s.recording
    ensures var r := OnSpectrum(s, sp, now);
      r.delivered == s.delivered && (r.buffer == s.buffer || r.buffer == [])
  {
  }

  /** Within 0.5 s of the last character (or of the start) a window changes nothing but the start cooldown. */
  lemma GuardIgnoresWindow(s: Recorder, sp: Spectrum, now: int)
    requires s.recording && now - s.lastCharTime < CHAR_GUARD_MS
    ensures var r := OnSpectrum(s, sp, now);
      r == s.(lastStartSignal := r.lastStartSignal)
  {
  }

  /**
    What a detected character does to a recording past the guard: a new
    character is appended (with an automatic comma in front of a digit that
    follows a letter in a comma-free buffer), and a message that becomes
    valid is delivered and recording stops; a repeated character only
    refreshes the last-character time.
   */
  lemma CharacterEffect(s: Recorder, sp: Spectrum, now: int, c: char)
    requires s.recording && now - s.lastCharTime >= CHAR_GUARD_MS
    requires DetectedChar(sp) == Some(c)
    ensures var r := OnSpectrum(s, sp, now);
      var b := if AutoComma(s.buffer, c) then s.buffer + [',', c] else s.buffer + [c];
      && (IsNewChar(s, c, now) && IsValidMessage(b) ==>
            !r.recording && r.buffer == [] && r.delivered == s.delivered + [b])
      && (IsNewChar(s, c, now) && !IsValidMessage(b) ==>
            r.recording && r.buffer == b && r.lastCharTime == now && r.delivered == s.delivered)
      && (!IsNewChar(s, c, now) ==>
            r.recording && r.buffer == s.buffer && r.lastCharTime == now && r.delivered == s.delivered)
  {
    assert Appended(s.buffer, c) == if AutoComma(s.buffer, c) then s.buffer + [',', c] else s.buffer + [c];
  }

  /**
    Past the 0.5 s guard the debounce can only reject a repeated character at
    exactly 0.5 s after the previous one; at any later time it is appended.
   */
  lemma DebounceOnlyAtGuardBoundary(s: Recorder, c: char, now: int)
    requires now - s.lastCharTime >= CHAR_GUARD_MS
    ensures !IsNewChar(s, c, now) <==>
      s.buffer != [] && Last(s.buffer) == c && now - s.lastCharTime == CHAR_GUARD_MS
  {
  }

  /** After more than 15 s without a character, recording ends with an empty buffer, delivering only a valid message. */
  lemma TimeoutEndsRecording(s: Recorder, now: int)
    requires s.recording && now - s.lastCharTime > MAX_SILENT_TIME_MS
    ensures var r := OnSilence(s, now);
      !r.recording && r.buffer == []
      && r.delivered == s.delivered + (if IsValidMessage(s.buffer) then [s.buffer] else [])
  {
  }

  /**
    The state machine's invariant: the buffer at rest is never a valid
    message (a valid one is delivered at once), and an idle receiver holds an
    empty buffer. Every message handed on is valid.
   */
  ghost predicate RecorderInv(s: Recorder) {
    && !IsValidMessage(s.buffer)
    && (!s.recording ==> s.buffer == [])
    && forall k | 0 <= k < |s.delivered| :: IsValidMessage(s.delivered[k])
  }

  lemma InitialRecorderInv(now: int)
    ensures RecorderInv(InitialRecorder(now))
  {
    assert ',' !in "";
  }

  lemma OnStartBandKeepsInv(s: Recorder, sp: Spectrum, now: int)
    requires RecorderInv(s)
    ensures RecorderInv(OnStartBand(s, sp, now))
  {
    assert ',' !in "";
  }

  lemma OnCharBandKeepsInv(s: Recorder, sp: Spectrum, now: int)
    requires RecorderInv(s)
    ensures RecorderInv(OnCharBand(s, sp, now))
  {
    var n := OnCharBand(s, sp, now);
    if n.delivered != s.delivered {
      var c := DetectedChar(sp).value;
      var b := Appended(s.buffer, c);
      assert n == s.(recording := false, buffer := [], delivered := s.delivered + [b]);
      assert IsValidMessage(b) && ',' !in "";
    }
  }

  lemma OnSpectrumKeepsInv(s: Recorder, sp: Spectrum, now: int)
    requires RecorderInv(s)
    ensures RecorderInv(OnSpectrum(s, sp, now))
  {
    OnStartBandKeepsInv(s, sp, now);
    OnCharBandKeepsInv(OnStartBand(s, sp, now), sp, now);
  }

  /** Since a valid buffer is delivered as soon as it forms, the timeout never delivers anything. */
  lemma OnSilenceKeepsInv(s: Recorder, now: int)
    requires RecorderInv(s)
    ensures RecorderInv(OnSilence(s, now))
    ensures OnSilence(s, now).delivered == s.delivered
  {
    assert ',' !in "";
  }

  // ---------------------------------------------------------------------------
  // The listen loop's audio buffer
  // ---------------------------------------------------------------------------

  const HALF_WINDOW := FFT_WINDOW_SIZE / 2
  const QUARTER_WINDOW := FFT_WINDOW_SIZE / 4

  /** `np.abs` on an int16 sample: -32768 has no positive counterpart and stays -32768. */
  function Abs16(x: int16): int16 {
    if x == -32768 then -32768 else if x < 0 then -x else x
  }

  /** `np.max(np.abs(chunk))`. */
  function ChunkPeak(chunk: seq<int16>): (p: int16)
    requires |chunk| > 0
    ensures forall k | 0 <= k < |chunk| :: Abs16(chunk[k]) <= p
    ensures exists k | 0 <= k < |chunk| :: Abs16(chunk[k]) == p
  {
    if |chunk| == 1 then Abs16(chunk[0])
    else
      var p := ChunkPeak(chunk[..|chunk| - 1]);
      assert forall k | 0 <= k < |chunk| - 1 :: chunk[..|chunk| - 1][k] == chunk[k];
      if Abs16(Last16(chunk)) > p then Abs16(Last16(chunk)) else p
  }

  function Last16(chunk: seq<int16>): int16
    requires |chunk| > 0
  {
    chunk[|chunk| - 1]
  }

  /** A chunk with no sample at -32768 peaks at the largest magnitude. */
  lemma ChunkPeakIsLargestMagnitude(chunk: seq<int16>)
    requires |chunk| > 0 && forall k | 0 <= k < |chunk| :: chunk[k] != -32768
    ensures ChunkPeak(chunk) >= 0
    ensures forall k | 0 <= k < |chunk| :: (if chunk[k] < 0 then -chunk[k] else chunk[k]) <= ChunkPeak(chunk)
  {
    assert Abs16(chunk[0]) >= 0;
  }

  /** A chunk whose every sample is at negative full scale counts as quiet. */
  lemma FullScaleNegativeChunkIsQuiet(chunk: seq<int16>)
    requires |chunk| > 0 && forall k | 0 <= k < |chunk| :: chunk[k] == -32768
    ensures ChunkPeak(chunk) <= SIGNAL_STRENGTH_SENSITIVITY_THRESHOLD as int16
  {
    var k :| 0 <= k < |chunk| && Abs16(chunk[k]) == ChunkPeak(chunk);
  }

  /** Python's `s[:n]`: the first `n` elements, or all of `s` when it is shorter. */
  function Take(s: seq<int16>, n: nat): (t: seq<int16>)
    ensures |t| == if |s| <= n then |s| else n
    ensures t == s[..|t|]
  {
    if |s| <= n then s else s[..n]
  }

  /** The state of `listen`: the recording state and the local `audio_buffer`. */
  datatype Listener = Listener(rec: Recorder, audio: seq<int16>)

  /** One iteration of the `while True` loop in `listen`, for a chunk read at time `now`. */
  function ListenIteration(l: Listener, chunk: seq<int16>, now: int, analyze: seq<int16> -> Spectrum): Listener
    requires |chunk| > 0
  {
    if ChunkPeak(chunk) as int > SIGNAL_STRENGTH_SENSITIVITY_THRESHOLD then
      var a := l.audio + chunk;
      if |a| >= HALF_WINDOW then
        Listener(OnWindow(l.rec, Take(a, FFT_WINDOW_SIZE), now, analyze), if |a| > QUARTER_WINDOW then a[QUARTER_WINDOW..] else [])
      else Listener(l.rec, a)
    else
      var r := if |l.audio| > 0 && |l.audio| >= HALF_WINDOW then OnWindow(l.rec, l.audio, now, analyze) else l.rec;
      Listener(OnSilence(r, now), [])
  }

  predicate ChunksOk(chunks: seq<seq<int16>>, clock: seq<int>) {
    |clock| == |chunks| && forall k | 0 <= k < |chunks| :: |chunks[k]| == BUFFER_CHUNK_SIZE
  }

  /** The listen loop over a finite run of chunks, chunk `k` read at time `clock[k]`. */
  function ListenRun(l: Listener, chunks: seq<seq<int16>>, clock: seq<int>, analyze: seq<int16> -> Spectrum): Listener
    requires ChunksOk(chunks, clock)
    decreases |chunks|
  {
    if chunks == [] then l
    else
      var n := |chunks| - 1;
      ListenIteration(ListenRun(l, chunks[..n], clock[..n], analyze), chunks[n], clock[n], analyze)
  }

  /**
    With 1024-sample chunks the audio buffer stays below half a window
    (5512 samples), so every window handed to the FFT is the whole buffer
    padded with zeros, and the quiet branch never has a window to process.
   */
  lemma ListenIterationBounded(l: Listener, chunk: seq<int16>, now: int, analyze: seq<int16> -> Spectrum)
    requires |l.audio| < HALF_WINDOW && |chunk| == BUFFER_CHUNK_SIZE
    ensures var a := l.audio + chunk;
      var r := ListenIteration(l, chunk, now, analyze);
      && |r.audio| < HALF_WINDOW
      && (ChunkPeak(chunk) as int <= SIGNAL_STRENGTH_SENSITIVITY_THRESHOLD ==>
            r == Listener(OnSilence(l.rec, now), []))
      && (ChunkPeak(chunk) as int > SIGNAL_STRENGTH_SENSITIVITY_THRESHOLD && |a| >= HALF_WINDOW ==>
            r.rec == OnSpectrum(l.rec, analyze(a + Zeros(FFT_WINDOW_SIZE - |a|)), now))
      && (ChunkPeak(chunk) as int > SIGNAL_STRENGTH_SENSITIVITY_THRESHOLD && |a| < HALF_WINDOW ==>
            r == Listener(l.rec, a))
  {
  }

  lemma {:induction false} ListenRunBounded(l: Listener, chunks: seq<seq<int16>>, clock: seq<int>, analyze: seq<int16> -> Spectrum)
    requires |l.audio| < HALF_WINDOW && ChunksOk(chunks, clock)
    ensures |ListenRun(l, chunks, clock, analyze).audio| < HALF_WINDOW
    decreases |chunks|
  {
    if chunks != [] {
      var n := |chunks| - 1;
      assert ChunksOk(chunks[..n], clock[..n]);
      ListenRunBounded(l, chunks[..n], clock[..n], analyze);
      ListenIterationBounded(ListenRun(l, chunks[..n], clock[..n], analyze), chunks[n], clock[n], analyze);
    }
  }

  /** The listen loop keeps the recorder invariant, so it hands on only valid messages. */
  lemma {:induction false} ListenRunKeepsInv(l: Listener, chunks: seq<seq<int16>>, clock: seq<int>, analyze: seq<int16> -> Spectrum)
    requires RecorderInv(l.rec) && ChunksOk(chunks, clock)
    ensures RecorderInv(ListenRun(l, chunks, clock, analyze).rec)
    decreases |chunks|
  {
    if chunks != [] {
      var n := |chunks| - 1;
      assert ChunksOk(chunks[..n], clock[..n]);
      ListenRunKeepsInv(l, chunks[..n], clock[..n], analyze);
      var m := ListenRun(l, chunks[..n], clock[..n], analyze);
      if |m.audio| > 0 && |m.audio| >= HALF_WINDOW {
        OnSpectrumKeepsInv(m.rec, analyze(FftWindow(m.audio)), clock[n]);
      }
      var a := m.audio + chunks[n];
      if |a| >= HALF_WINDOW {
        OnSpectrumKeepsInv(m.rec, analyze(FftWindow(Take(a, FFT_WINDOW_SIZE))), clock[n]);
      }
      var r := if |m.audio| > 0 && |m.audio| >= HALF_WINDOW then OnWindow(m.rec, m.audio, clock[n], analyze) else m.rec;
      OnSilenceKeepsInv(r, clock[n]);
    }
  }

  // ---------------------------------------------------------------------------
  // The receiver object
  // ---------------------------------------------------------------------------

  /** The receiver object and the fields `_process_audio_buffer` and `listen` update in place. */
  class AcousticServer {
    var isRecording: bool
    var messageBuffer: string
    var lastCharTime: int
    /** `_last_start_signal_time`; None while the attribute is unset. */
    var lastStartSignalTime: Option<int>
    /** The messages handed to `process_message`, in order. */
    var delivered: seq<string>

    function State(): Recorder
      reads this
    {
      Recorder(isRecording, messageBuffer, lastCharTime, lastStartSignalTime, delivered)
    }

    constructor (now: int)
      ensures State() == InitialRecorder(now)
    {
      isRecording := false;
      messageBuffer := [];
      lastCharTime := now;
      lastStartSignalTime := None;
      delivered := [];
    }

    /** Hands a message to `process_message`. */
    method HandOff(message: string)
      modifies this`delivered
      ensures delivered == old(delivered) + [message]
    {
      delivered := delivered + [message];
    }

    /** `_process_audio_buffer(bufferData)`, with `time.time()` read as `now`. */
    method ProcessAudioBuffer(bufferData: seq<int16>, now: int, analyze: seq<int16> -> Spectrum)
      modifies this
      ensures State() == OnWindow(old(State()), bufferData, now, analyze)
    {
      if |bufferData| == 0 {
        return;
      }
      var audioForFft: seq<int16>;
      if |bufferData| < FFT_WINDOW_SIZE {
        audioForFft := bufferData + Zeros(FFT_WINDOW_SIZE - |bufferData|);
      } else {
        audioForFft := bufferData[|bufferData| - FFT_WINDOW_SIZE..];
      }
      var sp := analyze(audioForFft);
      HandleStartBand(sp, now);
      HandleCharBand(sp, now);
    }

    /** The start-band half of `_process_audio_buffer`. */
    method HandleStartBand(sp: Spectrum, now: int)
      modifies this
      ensures State() == OnStartBand(old(State()), sp, now)
    {
      if sp.start.freq.Some? && sp.start.amp > START_END_THRESHOLD {
        if lastStartSignalTime.None? || now - lastStartSignalTime.value > START_COOLDOWN_MS {
          lastStartSignalTime := Some(now);
          if !isRecording {
            isRecording := true;
            messageBuffer := [];
            lastCharTime := now;
          }
        }
      }
    }

    /** The character-band half of `_process_audio_buffer`. */
    method HandleCharBand(sp: Spectrum, now: int)
      modifies this
      ensures State() == OnCharBand(old(State()), sp, now)
    {
      if !isRecording || now - lastCharTime < CHAR_GUARD_MS {
        return;
      }
      ghost var s0 := State();
      if sp.chars.freq.Some? && sp.chars.amp > CHAR_THRESHOLD {
        var c := ClosestChar(sp.chars.freq);
        assert c == DetectedChar(sp);
        if c.Some? {
          var ch := c.value;
          if messageBuffer == [] || Last(messageBuffer) != ch || now - lastCharTime > CHAR_GUARD_MS {
            assert IsNewChar(s0, ch, now);
            if IsDigit(ch) && ',' !in messageBuffer && |messageBuffer| > 0 && IsAsciiLetter(Last(messageBuffer)) {
              messageBuffer := messageBuffer + ",";
            }
            messageBuffer := messageBuffer + [ch];
            assert messageBuffer == Appended(s0.buffer, ch);
            if IsValidMessage(messageBuffer) {
              HandOff(messageBuffer);
              messageBuffer := [];
              isRecording := false;
              return;
            }
          }
          lastCharTime := now;
        }
      }
    }

    /** The timeout check in the quiet branch of `listen`. */
    method CheckSilence(now: int)
      modifies this
      ensures State() == OnSilence(old(State()), now)
    {
      if isRecording && now - lastCharTime > MAX_SILENT_TIME_MS {
        var currentMessage := messageBuffer;
        if !IsValidMessage(currentMessage) {
          isRecording := false;
          messageBuffer := [];
        } else {
          HandOff(currentMessage);
          messageBuffer := [];
          isRecording := false;
        }
      }
    }

    /** One pass of the loop in `listen`: read a chunk at time `now`, buffer it or treat it as quiet. */
    method ListenOnce(audioBuffer: seq<int16>, audioChunk: seq<int16>, now: int, analyze: seq<int16> -> Spectrum)
      returns (next: seq<int16>)
      requires |audioBuffer| < HALF_WINDOW && |audioChunk| == BUFFER_CHUNK_SIZE
      modifies this
      ensures Listener(State(), next) == ListenIteration(Listener(old(State()), audioBuffer), audioChunk, now, analyze)
      ensures |next| < HALF_WINDOW
    {
      next := audioBuffer;
      var maxAmpInChunk := ChunkPeak(audioChunk);
      if maxAmpInChunk as int > SIGNAL_STRENGTH_SENSITIVITY_THRESHOLD {
        next := next + audioChunk;
        if |next| >= HALF_WINDOW {
          ProcessAudioBuffer(Take(next, FFT_WINDOW_SIZE), now, analyze);
          next := if |next| > QUARTER_WINDOW then next[QUARTER_WINDOW..] else [];
        }
      } else {
        if |next| > 0 {
          if |next| >= HALF_WINDOW {
            // unreachable: with 1024-sample chunks the buffer stays below half a window
            assert false;
          }
          next := [];
        }
        CheckSilence(now);
      }
    }

    /**
      `listen` over a finite run of 1024-sample chunks, chunk `k` read at time
      `clock[k]`; returns the audio buffer left at the end.
     */
    method Listen(chunks: seq<seq<int16>>, clock: seq<int>, analyze: seq<int16> -> Spectrum) returns (audioBuffer: seq<int16>)
      requires ChunksOk(chunks, clock)
      modifies this
      ensures Listener(State(), audioBuffer) == ListenRun(Listener(old(State()), []), chunks, clock, analyze)
      ensures |audioBuffer| < HALF_WINDOW
    {
      audioBuffer := [];
      var i := 0;
      while i < |chunks|
        invariant 0 <= i <= |chunks|
        invariant ChunksOk(chunks[..i], clock[..i])
        invariant Listener(State(), audioBuffer) == ListenRun(Listener(old(State()), []), chunks[..i], clock[..i], analyze)
        invariant |audioBuffer| < HALF_WINDOW
      {
        audioBuffer := ListenOnce(audioBuffer, chunks[i], clock[i], analyze);
        assert chunks[..i + 1][..i] == chunks[..i] && clock[..i + 1][..i] == clock[..i];
        i := i + 1;
      }
      assert chunks[..i] == chunks && clock[..i] == clock;
    }
  }
}

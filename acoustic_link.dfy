/**
  The acoustic link end to end: what the watch's frames look like to the
  computer-app receiver, and where the pieces of the system disagree.

  Each tone is analysed in one or more windows, since `listen` processes a
  window every time half a window of loud audio has gathered; a window is
  handled once a whole chunk has been read, so it may come after the tone
  has stopped. The quiet chunks in the silence after a tone run the timeout
  check. A window is idealised as holding that one tone and nothing else:
  the band containing the tone reports it at the tone's amplitude, and a
  band without it reports nothing.
 */
module AcousticLink {
  import opened Wrappers
  import opened Text
  import opened FreqTable
  import R = AcousticServer
  import W = WatchTransmitter
  import L = LegacyAcousticServer
  import F = AddDiverForm

  // ---------------------------------------------------------------------------
  // The two tables
  // ---------------------------------------------------------------------------

  /** The watch's map and sentinels are the receiver's, entry for entry. */
  lemma TablesIdentical()
    ensures W.CHAR_TO_FREQ == R.CHAR_TO_FREQ
    ensures W.START_FREQ == R.START_FREQ && W.END_FREQ == R.END_FREQ
  {
    forall i | 0 <= i < 38
      ensures W.CHAR_TO_FREQ[i] == R.CHAR_TO_FREQ[i]
    {
      assert W.EntryAt(i) == R.EntryAt(i);
    }
  }

  /** Every character of the message has a tone. */
  predicate AllMapped(m: string) {
    forall k | 0 <= k < |m| :: W.CharToFreq(m[k]).Some?
  }

  /**
    For a message the watch can spell in full, the body tones read back
    through the receiver's FREQ_TO_CHAR (and through `_get_closest_char`)
    give the message, character by character.
   */
  lemma InnerTonesDecode(m: string)
    requires AllMapped(m)
    ensures |W.MappedTones(m)| == |m|
    ensures forall k | 0 <= k < |m| :: R.CharToFreq(m[k]) == Some(W.MappedTones(m)[k])
    ensures forall k | 0 <= k < |m| :: R.FreqToChar(W.MappedTones(m)[k]) == Some(m[k])
    ensures forall k | 0 <= k < |m| :: R.ClosestChar(Some(W.MappedTones(m)[k])) == Some(m[k])
  {
    EncodeAllMapped(W.CHAR_TO_FREQ, m);
    TablesIdentical();
    forall k | 0 <= k < |m|
      ensures R.FreqToChar(W.MappedTones(m)[k]) == Some(m[k])
      ensures R.ClosestChar(Some(W.MappedTones(m)[k])) == Some(m[k])
    {
      var i :| 0 <= i < |R.CHAR_TO_FREQ| && R.CHAR_TO_FREQ[i] == (m[k], R.CharToFreq(m[k]).value);
      R.CharToFreqAt(i);
      R.ClosestCharOfFreq(m[k]);
    }
  }

  // ---------------------------------------------------------------------------
  // Windows heard by the receiver
  // ---------------------------------------------------------------------------

  /** What the receiver's two bands report for a window holding only the tone `f` at amplitude `amp`. */
  function Clean(f: int, amp: int): R.Spectrum {
    R.Spectrum(
      if R.START_FREQ - 150 < f < R.START_FREQ + 150 then R.Peak(Some(f), amp) else R.Peak(None, 0),
      if 1900 < f < 10100 then R.Peak(Some(f), amp) else R.Peak(None, 0))
  }

  /**
    What `listen` does to the recording state during one tone's slot, at an
    offset in milliseconds from the tone's start: hand a window to
    `_process_audio_buffer` while the tone sounds, or meet a quiet chunk in
    the silence after it and run the timeout check.
   */
  datatype Chunk = Analysed(offMs: int) | Silent(offMs: int)

  /** A chunk of a tone's slot at the time it is handled: a loud window with its analysis, or a quiet chunk. */
  datatype Window = Loud(sp: R.Spectrum, atMs: int) | Quiet(atMs: int)

  /** The two steps of the listen loop that change the recording state (see `R.ListenIterationBounded`). */
  function Step(s: R.Recorder, w: Window): R.Recorder {
    match w
    case Loud(sp, now) => R.OnSpectrum(s, sp, now)
    case Quiet(now) => R.OnSilence(s, now)
  }

  function WindowAt(t: W.Tone, c: Chunk, amp: int): Window {
    match c
    case Analysed(o) => Loud(Clean(t.freq, amp), t.atMs + o)
    case Silent(o) => Quiet(t.atMs + o)
  }

  /** The windows of one tone's slot: chunk `i` is handled `offs[i].offMs` ms after the tone starts. */
  function ToneWindows(t: W.Tone, offs: seq<Chunk>, amp: int): (ws: seq<Window>)
    ensures |ws| == |offs|
    ensures forall i | 0 <= i < |ws| :: ws[i] == WindowAt(t, offs[i], amp)
  {
    seq(|offs|, i requires 0 <= i < |offs| => WindowAt(t, offs[i], amp))
  }

  /**
    The windows heard for played tones, tone by tone: tone `k`'s slot holds
    the chunks `offsets[k]`, and the receiver hears it at amplitude `amps[k]`.
   */
  function Heard(tones: seq<W.Tone>, offsets: seq<seq<Chunk>>, amps: seq<int>): seq<Window>
    requires |offsets| == |tones| && |amps| == |tones|
    decreases |tones|
  {
    if tones == [] then []
    else ToneWindows(tones[0], offsets[0], amps[0]) + Heard(tones[1..], offsets[1..], amps[1..])
  }

  /**
    A chunk after the first of a slot whose first window comes `first` ms
    after the tone starts: another window within the 0.5 s guard of the
    first one (a window is handled only once a whole chunk has been read,
    possibly after the tone has ended), or a quiet chunk after the tone and
    at most 15 s after its start.
   */
  predicate InSlot(c: Chunk, first: int) {
    match c
    case Analysed(o) => first <= o < first + R.CHAR_GUARD_MS
    case Silent(o) => W.CHUNK_MS <= o <= R.MAX_SILENT_TIME_MS
  }

  /** A tone's slot: its first chunk is a window handled while the tone sounds, and every later chunk lies in the slot. */
  predicate ToneChunks(offs: seq<Chunk>) {
    && |offs| > 0 && offs[0].Analysed? && 0 <= offs[0].offMs < W.CHUNK_MS
    && forall i | 1 <= i < |offs| :: InSlot(offs[i], offs[0].offMs)
  }

  /** Every tone is analysed at least once, and every chunk falls in its tone's slot. */
  predicate DuringTones(offsets: seq<seq<Chunk>>) {
    forall k | 0 <= k < |offsets| :: ToneChunks(offsets[k])
  }

  /** The recording state after a run of windows, in order. */
  function Receive(s: R.Recorder, ws: seq<Window>): R.Recorder
    decreases |ws|
  {
    if ws == [] then s else Receive(Step(s, ws[0]), ws[1..])
  }

  lemma {:induction false} ReceiveConcat(s: R.Recorder, a: seq<Window>, b: seq<Window>)
    ensures Receive(s, a + b) == Receive(Receive(s, a), b)
    decreases |a|
  {
    if a == [] {
      assert a + b == b;
    } else {
      assert (a + b)[0] == a[0] && (a + b)[1..] == a[1..] + b;
      ReceiveConcat(Step(s, a[0]), a[1..], b);
    }
  }

  /** Windows from `j` on each of which leaves the state as it is leave it as it is together. */
  lemma {:induction false} ReceiveIgnored(s: R.Recorder, ws: seq<Window>, j: nat)
    requires j <= |ws|
    requires forall i | j <= i < |ws| :: Step(s, ws[i]) == s
    ensures Receive(s, ws[j..]) == s
    decreases |ws| - j
  {
    if j < |ws| {
      assert ws[j..][0] == ws[j] && ws[j..][1..] == ws[j + 1..];
      ReceiveIgnored(s, ws, j + 1);
    }
  }

  /** A window without an accepted start signal, seen while idle or within 0.5 s of the last character, changes nothing. */
  lemma QuietWindow(s: R.Recorder, sp: R.Spectrum, now: int)
    requires !R.StartAccepted(s, sp, now)
    requires !s.recording || now - s.lastCharTime < R.CHAR_GUARD_MS
    ensures R.OnSpectrum(s, sp, now) == s
  {
  }

  /** A quiet chunk changes nothing while idle or within 15 s of the last character. */
  lemma SilentChunk(s: R.Recorder, now: int)
    requires !s.recording || now - s.lastCharTime <= R.MAX_SILENT_TIME_MS
    ensures R.OnSilence(s, now) == s
  {
  }

  /** A run of windows is acted on at its first window only, when the state that window leaves ignores the others. */
  lemma HeardOnce(r: R.Recorder, n: R.Recorder, ws: seq<Window>)
    requires |ws| > 0 && n == Step(r, ws[0])
    requires forall i | 1 <= i < |ws| :: Step(n, ws[i]) == n
    ensures Receive(r, ws) == n
  {
    ReceiveIgnored(n, ws, 1);
  }

  /**
    Within a tone's slot, a state that is idle, or that marked a character
    or a start signal at the slot's first window, ignores every later chunk
    of the slot: windows fall within the 0.5 s guard and the start cooldown,
    quiet chunks within the 15 s timeout.
   */
  lemma LaterChunksIgnored(n: R.Recorder, t: W.Tone, offs: seq<Chunk>, amp: int)
    requires ToneChunks(offs)
    requires !n.recording || n.lastCharTime == t.atMs + offs[0].offMs
    requires !(R.START_FREQ - 150 < t.freq < R.START_FREQ + 150) || n.lastStartSignal == Some(t.atMs + offs[0].offMs)
    ensures forall i | 1 <= i < |offs| :: Step(n, WindowAt(t, offs[i], amp)) == n
  {
    forall i | 1 <= i < |offs|
      ensures Step(n, WindowAt(t, offs[i], amp)) == n
    {
      assert InSlot(offs[i], offs[0].offMs);
      match offs[i]
      case Analysed(o) =>
        QuietWindow(n, Clean(t.freq, amp), t.atMs + o);
      case Silent(o) =>
        SilentChunk(n, t.atMs + o);
    }
  }

  /**
    A tone outside the start band is acted on at its first window only,
    when that window leaves the receiver idle or marks a character at that
    window's time.
   */
  lemma CharToneHeardOnce(r: R.Recorder, t: W.Tone, offs: seq<Chunk>, amp: int)
    requires ToneChunks(offs)
    requires !(R.START_FREQ - 150 < t.freq < R.START_FREQ + 150)
    requires var n := R.OnSpectrum(r, Clean(t.freq, amp), t.atMs + offs[0].offMs);
      !n.recording || n.lastCharTime == t.atMs + offs[0].offMs
    ensures Receive(r, ToneWindows(t, offs, amp)) == R.OnSpectrum(r, Clean(t.freq, amp), t.atMs + offs[0].offMs)
  {
    var ws := ToneWindows(t, offs, amp);
    var n := R.OnSpectrum(r, Clean(t.freq, amp), t.atMs + offs[0].offMs);
    FirstWindow(r, t, offs, amp);
    LaterChunksIgnored(n, t, offs, amp);
    HeardOnce(r, n, ws);
  }

  /** The first window of a slot is the tone analysed at the slot's first offset. */
  lemma FirstWindow(r: R.Recorder, t: W.Tone, offs: seq<Chunk>, amp: int)
    requires ToneChunks(offs)
    ensures Step(r, ToneWindows(t, offs, amp)[0]) == R.OnSpectrum(r, Clean(t.freq, amp), t.atMs + offs[0].offMs)
  {
  }

  /**
    The start tone heard by an idle receiver past its cooldown opens an
    empty message at its first window, and the rest of its slot changes
    nothing.
   */
  lemma StartToneHeardOnce(s: R.Recorder, t: W.Tone, offs: seq<Chunk>, amp: int)
    requires ToneChunks(offs)
    requires t.freq == R.START_FREQ && amp > R.START_END_THRESHOLD
    requires !s.recording && (s.lastStartSignal.None? || t.atMs + offs[0].offMs - s.lastStartSignal.value > R.START_COOLDOWN_MS)
    ensures var now := t.atMs + offs[0].offMs;
      Receive(s, ToneWindows(t, offs, amp))
        == s.(recording := true, buffer := [], lastCharTime := now, lastStartSignal := Some(now))
  {
    var ws := ToneWindows(t, offs, amp);
    var now := t.atMs + offs[0].offMs;
    StartWindow(s, now, amp);
    var n := R.OnSpectrum(s, Clean(t.freq, amp), now);
    FirstWindow(s, t, offs, amp);
    LaterChunksIgnored(n, t, offs, amp);
    HeardOnce(s, n, ws);
  }

  /** An idle receiver ignores the whole slot of the end tone. */
  lemma EndToneIgnored(r: R.Recorder, t: W.Tone, offs: seq<Chunk>, amp: int)
    requires !r.recording && t.freq == R.END_FREQ
    ensures Receive(r, ToneWindows(t, offs, amp)) == r
  {
    var ws := ToneWindows(t, offs, amp);
    forall i | 0 <= i < |ws|
      ensures Step(r, ws[i]) == r
    {
      match offs[i]
      case Analysed(o) =>
        QuietWindow(r, Clean(t.freq, amp), t.atMs + o);
      case Silent(o) =>
        SilentChunk(r, t.atMs + o);
    }
    ReceiveIgnored(r, ws, 0);
    assert ws[0..] == ws;
  }

  /** The windows of a run of tones: those of the first tone, then those of the rest. */
  lemma HeardFrom(tones: seq<W.Tone>, offsets: seq<seq<Chunk>>, amps: seq<int>, j: nat)
    requires |offsets| == |tones| && |amps| == |tones| && j < |tones|
    ensures Heard(tones[j..], offsets[j..], amps[j..])
      == ToneWindows(tones[j], offsets[j], amps[j]) + Heard(tones[j + 1..], offsets[j + 1..], amps[j + 1..])
  {
    assert tones[j..][0] == tones[j] && tones[j..][1..] == tones[j + 1..];
    assert offsets[j..][0] == offsets[j] && offsets[j..][1..] == offsets[j + 1..];
    assert amps[j..][0] == amps[j] && amps[j..][1..] == amps[j + 1..];
  }

  /** The start tone opens an empty message when the receiver is idle and past the start cooldown. */
  lemma StartWindow(s: R.Recorder, now: int, amp: int)
    requires !s.recording && amp > R.START_END_THRESHOLD
    requires s.lastStartSignal.None? || now - s.lastStartSignal.value > R.START_COOLDOWN_MS
    ensures R.OnSpectrum(s, Clean(R.START_FREQ, amp), now)
      == s.(recording := true, buffer := [], lastCharTime := now, lastStartSignal := Some(now))
  {
  }

  /** Every table frequency lies in the character band and outside the start band. */
  lemma TableInCharBand(c: char)
    requires R.CharToFreq(c).Some?
    ensures 1900 < R.CharToFreq(c).value < 10100
    ensures !(R.START_FREQ - 150 < R.CharToFreq(c).value < R.START_FREQ + 150)
  {
    R.TableLayout();
    var i :| 0 <= i < |R.CHAR_TO_FREQ| && R.CHAR_TO_FREQ[i] == (c, R.CharToFreq(c).value);
  }

  /**
    A character tone louder than the character threshold, heard more than 0.5 s after the last character, is
    appended (when no automatic comma applies), and a message it completes
    is delivered.
   */
  lemma CharWindow(r: R.Recorder, c: char, now: int, amp: int)
    requires R.CharToFreq(c).Some? && amp > R.CHAR_THRESHOLD
    requires r.recording && now - r.lastCharTime > R.CHAR_GUARD_MS
    requires !R.AutoComma(r.buffer, c)
    ensures var n := R.OnSpectrum(r, Clean(R.CharToFreq(c).value, amp), now);
      var b := r.buffer + [c];
      && (R.IsValidMessage(b) ==> !n.recording && n.buffer == [] && n.delivered == r.delivered + [b])
      && (!R.IsValidMessage(b) ==>
            n.recording && n.buffer == b && n.lastCharTime == now && n.delivered == r.delivered)
  {
    TableInCharBand(c);
    R.ClosestCharOfFreq(c);
    var sp := Clean(R.CharToFreq(c).value, amp);
    assert R.DetectedChar(sp) == Some(c);
    R.CharacterEffect(r, sp, now, c);
  }

  // ---------------------------------------------------------------------------
  // A reading travels from the watch to the receiver
  // ---------------------------------------------------------------------------

  /** An ID the watch sends whole and the receiver reads back: non-empty, lower-case letters and '-' only. */
  predicate SendableId(id: string) {
    id != [] && forall k | 0 <= k < |id| :: IsLowerLetter(id[k]) || id[k] == '-'
  }

  lemma SendableIdFacts(id: string)
    requires SendableId(id)
    ensures ',' !in id && AllNonDigits(id)
    ensures forall k | 0 <= k < |id| :: W.CharToFreq(id[k]).Some?
  {
    forall k | 0 <= k < |id|
      ensures W.CharToFreq(id[k]).Some?
    {
      W.MapCoverage(id[k]);
    }
  }

  /** A BPM the receiver accepts: a digit string worth 40..200. */
  predicate AcceptedBpm(bpm: string) {
    IsDigitString(bpm) && R.MIN_BPM <= DigitsValue(bpm) <= R.MAX_BPM
  }

  /** The watch has a tone for every character of `id,bpm`. */
  lemma MessageMapped(id: string, bpm: string)
    requires SendableId(id) && AcceptedBpm(bpm)
    ensures AllMapped(id + "," + bpm)
  {
    var m := id + "," + bpm;
    SendableIdFacts(id);
    forall k | 0 <= k < |m|
      ensures W.CharToFreq(m[k]).Some?
    {
      if k < |id| {
        assert m[k] == id[k];
      } else {
        W.MapCoverage(m[k]);
        if k > |id| {
          assert m[k] == bpm[k - |id| - 1];
        }
      }
    }
  }

  /** While `id,bpm` arrives character by character, only the whole message is valid. */
  lemma PrefixValidity(id: string, bpm: string, j: nat)
    requires SendableId(id) && AcceptedBpm(bpm)
    requires j <= |id| + 1 + |bpm|
    ensures R.IsValidMessage((id + "," + bpm)[..j]) <==> j == |id| + 1 + |bpm|
  {
    SendableIdFacts(id);
    var m := id + "," + bpm;
    if j <= |id| {
      assert m[..j] == id[..j];
      assert forall x | x in id[..j] :: x in id;
    } else if j == |id| + 1 {
      assert m[..j] == id + "," + "";
      R.ValidComposed(id, "");
    } else if j < |m| {
      assert m[..j] == id + "," + bpm[..j - |id| - 1];
      R.NoEarlyCompletion(id, bpm, j - |id| - 1);
    } else {
      assert m[..j] == m;
      R.ValidComposed(id, bpm);
    }
  }

  /** The receiver never inserts a comma of its own into `id,bpm`: the digits arrive after the watch's comma. */
  lemma NoAutoComma(id: string, bpm: string, j: nat)
    requires SendableId(id) && AcceptedBpm(bpm)
    requires j < |id| + 1 + |bpm|
    ensures !R.AutoComma((id + "," + bpm)[..j], (id + "," + bpm)[j])
  {
    var m := id + "," + bpm;
    if j < |id| {
      assert m[j] == id[j];
    } else if j > |id| {
      assert m[..j][|id|] == ',';
    }
  }

  /**
    Consecutive tones start at least one 0.8 s slot apart, since each
    `delay` waits at least its time and synthesis and `write` take time too,
    and at most 15 s apart, beyond which the receiver's timeout would end
    the message.
   */
  predicate SlotsApart(tones: seq<W.Tone>) {
    forall k | 1 <= k < |tones| :: W.TONE_SLOT_MS <= tones[k].atMs - tones[k - 1].atMs <= R.MAX_SILENT_TIME_MS
  }

  /** `tones` plays the frequencies `f` in order, slots apart. */
  predicate Plays(f: seq<int>, tones: seq<W.Tone>) {
    && |tones| == |f|
    && (forall k | 0 <= k < |f| :: tones[k].freq == f[k])
    && SlotsApart(tones)
  }

  /**
    The tones of the frame of `m`, as played: the start tone, one table tone
    per character, the end tone, slots apart.
   */
  predicate FramePlayed(m: string, tones: seq<W.Tone>) {
    && |tones| == |m| + 2
    && tones[0].freq == R.START_FREQ
    && (forall k | 0 <= k < |m| :: R.CharToFreq(m[k]).Some? && tones[k + 1].freq == R.CharToFreq(m[k]).value)
    && tones[|m| + 1].freq == R.END_FREQ
    && SlotsApart(tones)
  }

  /** The start tone is heard loud enough for the start band, and every character tone for the character band. */
  predicate Audible(amps: seq<int>) {
    && |amps| > 0 && amps[0] > R.START_END_THRESHOLD
    && forall k | 1 <= k < |amps| - 1 :: amps[k] > R.CHAR_THRESHOLD
  }

  /** The time at which tone `k` is first analysed. */
  function FirstHeard(tones: seq<W.Tone>, offsets: seq<seq<Chunk>>, k: nat): int
    requires |offsets| == |tones| && k < |tones| && DuringTones(offsets)
  {
    tones[k].atMs + offsets[k][0].offMs
  }

  /** One character tone: character `j` of `id,bpm` is appended, and the last one delivers the message. */
  lemma BodyStep(id: string, bpm: string, sp: R.Spectrum, now: int, amp: int, j: nat, r: R.Recorder)
    requires SendableId(id) && AcceptedBpm(bpm) && amp > R.CHAR_THRESHOLD
    requires 1 <= j <= |id| + 1 + |bpm|
    requires R.CharToFreq((id + "," + bpm)[j - 1]).Some?
    requires sp == Clean(R.CharToFreq((id + "," + bpm)[j - 1]).value, amp)
    requires r.recording && r.buffer == (id + "," + bpm)[..j - 1] && now - r.lastCharTime > R.CHAR_GUARD_MS
    ensures var n := R.OnSpectrum(r, sp, now);
      && (j == |id| + 1 + |bpm| ==>
            !n.recording && n.buffer == [] && n.delivered == r.delivered + [id + "," + bpm])
      && (j < |id| + 1 + |bpm| ==>
            n.recording && n.buffer == (id + "," + bpm)[..j] && n.lastCharTime == now && n.delivered == r.delivered)
  {
    var m := id + "," + bpm;
    PrefixValidity(id, bpm, j);
    NoAutoComma(id, bpm, j - 1);
    if j == |m| {
      assert m[..j] == m;
      LastCharStep(m, r, now, amp);
    } else {
      InnerCharStep(m, j, r, now, amp);
    }
  }

  /** The last character of a valid message, heard past the guard, delivers the message. */
  lemma LastCharStep(m: string, r: R.Recorder, now: int, amp: int)
    requires |m| > 0 && amp > R.CHAR_THRESHOLD
    requires R.CharToFreq(m[|m| - 1]).Some?
    requires R.IsValidMessage(m) && !R.AutoComma(m[..|m| - 1], m[|m| - 1])
    requires r.recording && r.buffer == m[..|m| - 1] && now - r.lastCharTime > R.CHAR_GUARD_MS
    ensures var n := R.OnSpectrum(r, Clean(R.CharToFreq(m[|m| - 1]).value, amp), now);
      !n.recording && n.buffer == [] && n.delivered == r.delivered + [m]
  {
    assert r.buffer + [m[|m| - 1]] == m;
    CharWindow(r, m[|m| - 1], now, amp);
  }

  /** A character that leaves the buffer an invalid prefix of the message is appended. */
  lemma InnerCharStep(m: string, j: nat, r: R.Recorder, now: int, amp: int)
    requires 1 <= j < |m| && amp > R.CHAR_THRESHOLD
    requires R.CharToFreq(m[j - 1]).Some?
    requires !R.IsValidMessage(m[..j]) && !R.AutoComma(m[..j - 1], m[j - 1])
    requires r.recording && r.buffer == m[..j - 1] && now - r.lastCharTime > R.CHAR_GUARD_MS
    ensures var n := R.OnSpectrum(r, Clean(R.CharToFreq(m[j - 1]).value, amp), now);
      n.recording && n.buffer == m[..j] && n.lastCharTime == now && n.delivered == r.delivered
  {
    assert r.buffer + [m[j - 1]] == m[..j];
    CharWindow(r, m[j - 1], now, amp);
  }

  /** All windows of the tone of character `j`: the character is appended at the first, and the last one delivers the message. */
  lemma CharTone(id: string, bpm: string, t: W.Tone, offs: seq<Chunk>, amp: int, j: nat, r: R.Recorder)
    requires SendableId(id) && AcceptedBpm(bpm) && amp > R.CHAR_THRESHOLD
    requires 1 <= j <= |id| + 1 + |bpm|
    requires R.CharToFreq((id + "," + bpm)[j - 1]).Some? && t.freq == R.CharToFreq((id + "," + bpm)[j - 1]).value
    requires ToneChunks(offs)
    requires r.recording && r.buffer == (id + "," + bpm)[..j - 1] && t.atMs + offs[0].offMs - r.lastCharTime > R.CHAR_GUARD_MS
    ensures var n := Receive(r, ToneWindows(t, offs, amp));
      && (j == |id| + 1 + |bpm| ==>
            !n.recording && n.buffer == [] && n.delivered == r.delivered + [id + "," + bpm])
      && (j < |id| + 1 + |bpm| ==>
            n.recording && n.buffer == (id + "," + bpm)[..j] && n.lastCharTime == t.atMs + offs[0].offMs
            && n.delivered == r.delivered)
  {
    BodyStep(id, bpm, Clean(t.freq, amp), t.atMs + offs[0].offMs, amp, j, r);
    TableInCharBand((id + "," + bpm)[j - 1]);
    CharToneHeardOnce(r, t, offs, amp);
  }

  /**
    From character tone `j` on, the receiver completes and delivers the
    message, then ignores the end tone.
   */
  lemma {:induction false} BodyDelivers(id: string, bpm: string, tones: seq<W.Tone>, offsets: seq<seq<Chunk>>, amps: seq<int>, j: nat, r: R.Recorder)
    requires SendableId(id) && AcceptedBpm(bpm)
    requires FramePlayed(id + "," + bpm, tones) && |offsets| == |tones| && DuringTones(offsets)
    requires |amps| == |tones| && Audible(amps)
    requires 1 <= j <= |id| + 1 + |bpm|
    requires r.recording && r.buffer == (id + "," + bpm)[..j - 1] && r.lastCharTime == FirstHeard(tones, offsets, j - 1)
    ensures var e := Receive(r, Heard(tones[j..], offsets[j..], amps[j..]));
      !e.recording && e.buffer == [] && e.delivered == r.delivered + [id + "," + bpm]
    decreases |id| + 1 + |bpm| - j
  {
    var ws := ToneWindows(tones[j], offsets[j], amps[j]);
    var m := id + "," + bpm;
    assert R.CharToFreq(m[j - 1]).Some? && tones[j].freq == R.CharToFreq(m[j - 1]).value;
    assert tones[j].atMs - tones[j - 1].atMs >= W.TONE_SLOT_MS;
    CharTone(id, bpm, tones[j], offsets[j], amps[j], j, r);
    var n := Receive(r, ws);
    HeardFrom(tones, offsets, amps, j);
    ReceiveConcat(r, ws, Heard(tones[j + 1..], offsets[j + 1..], amps[j + 1..]));
    if j == |id| + 1 + |bpm| {
      HeardFrom(tones, offsets, amps, j + 1);
      assert tones[j + 2..] == [] && offsets[j + 2..] == [] && amps[j + 2..] == [];
      var ew := ToneWindows(tones[j + 1], offsets[j + 1], amps[j + 1]);
      assert ew + Heard(tones[j + 2..], offsets[j + 2..], amps[j + 2..]) == ew;
      EndToneIgnored(n, tones[j + 1], offsets[j + 1], amps[j + 1]);
    } else {
      BodyDelivers(id, bpm, tones, offsets, amps, j + 1, n);
    }
  }

  /** The frame of a fully mapped message: start tone, one table tone per character, end tone. */
  lemma FrameContents(m: string)
    requires AllMapped(m)
    ensures var f := W.Frame(m);
      && |f| == |m| + 2 && f[0] == R.START_FREQ && f[|m| + 1] == R.END_FREQ
      && forall k | 0 <= k < |m| :: R.CharToFreq(m[k]).Some? && f[k + 1] == R.CharToFreq(m[k]).value
  {
    var f := W.Frame(m);
    var t := W.MappedTones(m);
    MappedLength(m);
    assert f == [R.START_FREQ] + t + [R.END_FREQ];
    forall k | 0 <= k < |m|
      ensures R.CharToFreq(m[k]).Some? && f[k + 1] == R.CharToFreq(m[k]).value
    {
      MappedToneAt(m, k);
      assert f[k + 1] == t[k];
    }
  }

  /** A fully mapped message has one tone per character. */
  lemma MappedLength(m: string)
    requires AllMapped(m)
    ensures |W.MappedTones(m)| == |m|
  {
    InnerTonesDecode(m);
  }

  /** The tone of character `k` of a fully mapped message is the receiver's frequency for it. */
  lemma MappedToneAt(m: string, k: nat)
    requires AllMapped(m) && k < |m|
    ensures |W.MappedTones(m)| == |m| && R.CharToFreq(m[k]) == Some(W.MappedTones(m)[k])
  {
    InnerTonesDecode(m);
  }

  /** The watch's nominal schedule, one 0.8 s slot per tone, is one way of playing the tones. */
  lemma ScheduledFramePlays(f: seq<int>, t0: int)
    ensures Plays(f, W.Schedule(f, t0))
  {
    var tones := W.Schedule(f, t0);
    forall k | 1 <= k < |tones|
      ensures tones[k].atMs - tones[k - 1].atMs == W.TONE_SLOT_MS
    {
      assert tones[k].atMs == t0 + W.TONE_SLOT_MS * (k - 1) + W.TONE_SLOT_MS;
    }
  }

  /** Tones that play the frame of a fully mapped message are the start tone, one table tone per character and the end tone. */
  lemma FrameTones(m: string, tones: seq<W.Tone>)
    requires AllMapped(m) && Plays(W.Frame(m), tones)
    ensures FramePlayed(m, tones)
  {
    FrameContents(m);
    var f := W.Frame(m);
    assert tones[0].freq == f[0] && tones[|m| + 1].freq == f[|m| + 1];
    forall k | 1 <= k <= |m|
      ensures tones[k].freq == f[k]
    {
    }
  }

  /** The frame of `id,bpm`, played tone by tone, is delivered by an idle receiver past its start cooldown. */
  lemma PlayedFrameDelivered(id: string, bpm: string, tones: seq<W.Tone>, offsets: seq<seq<Chunk>>, amps: seq<int>, s: R.Recorder)
    requires SendableId(id) && AcceptedBpm(bpm)
    requires FramePlayed(id + "," + bpm, tones) && |offsets| == |tones| && DuringTones(offsets)
    requires |amps| == |tones| && Audible(amps)
    requires !s.recording && (s.lastStartSignal.None? || FirstHeard(tones, offsets, 0) - s.lastStartSignal.value > R.START_COOLDOWN_MS)
    ensures var r := Receive(s, Heard(tones, offsets, amps));
      !r.recording && r.buffer == [] && r.delivered == s.delivered + [id + "," + bpm]
  {
    var ws := ToneWindows(tones[0], offsets[0], amps[0]);
    StartToneHeardOnce(s, tones[0], offsets[0], amps[0]);
    var r0 := Receive(s, ws);
    HeardFrom(tones, offsets, amps, 0);
    assert tones[0..] == tones && offsets[0..] == offsets && amps[0..] == amps;
    ReceiveConcat(s, ws, Heard(tones[1..], offsets[1..], amps[1..]));
    assert (id + "," + bpm)[..0] == [];
    BodyDelivers(id, bpm, tones, offsets, amps, 1, r0);
  }

  /**
    End to end: when an idle receiver, past its start cooldown, hears the
    frame of `id,bpm` played with slots of at least 0.8 s, the start tone
    loud enough for the start band and every character tone for the
    character band, each tone analysed one or more times and quiet chunks
    in the silence after it, it delivers exactly that message, once, and is
    idle again afterwards.
   */
  lemma FrameDelivered(id: string, bpm: string, tones: seq<W.Tone>, offsets: seq<seq<Chunk>>, amps: seq<int>, s: R.Recorder)
    requires SendableId(id) && AcceptedBpm(bpm)
    requires Plays(W.Frame(id + "," + bpm), tones) && |offsets| == |tones| && DuringTones(offsets)
    requires |amps| == |tones| && Audible(amps)
    requires !s.recording && (s.lastStartSignal.None? || tones[0].atMs + offsets[0][0].offMs - s.lastStartSignal.value > R.START_COOLDOWN_MS)
    ensures var r := Receive(s, Heard(tones, offsets, amps));
      !r.recording && r.buffer == [] && r.delivered == s.delivered + [id + "," + bpm]
  {
    var m := id + "," + bpm;
    MessageMapped(id, bpm);
    FrameTones(m, tones);
    PlayedFrameDelivered(id, bpm, tones, offsets, amps, s);
  }

  /**
    The delivered message parses back into the diver's ID and BPM, with the
    status that BPM calls for.
   */
  lemma DeliveredReadingParses(id: string, bpm: string)
    requires SendableId(id) && AcceptedBpm(bpm)
    ensures R.ParseReading(id + "," + bpm) ==
      Success(R.Reading(id, DigitsValue(bpm), R.Classify(DigitsValue(bpm))))
  {
    SendableIdFacts(id);
    R.ParseComposed(id, bpm);
  }

  /** The watch's periodic message for a sendable ID and an in-range heart-rate reading is delivered whole. */
  lemma JobMessageDelivered(diverId: string, heartRateText: string, tones: seq<W.Tone>, offsets: seq<seq<Chunk>>, amps: seq<int>, s: R.Recorder)
    requires SendableId(diverId) && AcceptedBpm(Digits(heartRateText))
    requires Plays(W.Frame(W.JobMessage(diverId, heartRateText)), tones) && |offsets| == |tones| && DuringTones(offsets)
    requires |amps| == |tones| && Audible(amps)
    requires !s.recording && (s.lastStartSignal.None? || tones[0].atMs + offsets[0][0].offMs - s.lastStartSignal.value > R.START_COOLDOWN_MS)
    ensures var r := Receive(s, Heard(tones, offsets, amps));
      r.delivered == s.delivered + [W.JobMessage(diverId, heartRateText)]
  {
    FrameDelivered(diverId, Digits(heartRateText), tones, offsets, amps, s);
  }

  // ---------------------------------------------------------------------------
  // Where the pieces disagree
  // ---------------------------------------------------------------------------

  /** A dashboard-valid ID parses back whole from `id,<digits>`. */
  lemma ValidIdParses(id: string, bpm: string)
    requires F.ValidateId(id) && IsDigitString(bpm)
    ensures R.ParseReading(id + "," + bpm) ==
      Success(R.Reading(id, DigitsValue(bpm), R.Classify(DigitsValue(bpm))))
  {
    F.ValidIdHasNoDigitOrSeparator(id);
    R.ParseComposed(id, bpm);
  }

  /** The ID with its upper-case ASCII letters removed. */
  function DropUpper(id: string): (r: string)
    ensures |r| <= |id|
  {
    if id == [] then [] else (if 'A' <= id[0] <= 'Z' then [] else [id[0]]) + DropUpper(id[1..])
  }

  /** The watch plays nothing for an upper-case letter, so its tones for `id` are those for `DropUpper(id)`. */
  lemma {:induction false} MappedTonesDropUpper(id: string)
    ensures W.MappedTones(id) == W.MappedTones(DropUpper(id))
    decreases |id|
  {
    if id != [] {
      MappedTonesDropUpper(id[1..]);
      EncodeConcat(W.CHAR_TO_FREQ, [id[0]], id[1..]);
      EncodeChar(W.CHAR_TO_FREQ, id[0]);
      var head := if 'A' <= id[0] <= 'Z' then [] else [id[0]];
      EncodeConcat(W.CHAR_TO_FREQ, head, DropUpper(id[1..]));
      EncodeChar(W.CHAR_TO_FREQ, id[0]);
      W.MapCoverage(id[0]);
      assert [id[0]] + id[1..] == id;
      if head == [] {
        assert head + DropUpper(id[1..]) == DropUpper(id[1..]);
      }
    }
  }

  /**
    The dashboard accepts upper-case IDs, but the watch's map has lower-case
    letters only: an upper-case letter is sent as nothing, so `id,bpm` goes
    out exactly as the ID without its upper-case letters would.
   */
  lemma UppercaseIdLosesLetters(id: string, bpm: string)
    ensures W.Frame(id + "," + bpm) == W.Frame(DropUpper(id) + "," + bpm)
  {
    FrameDropUpper(id, "," + bpm);
    assert id + "," + bpm == id + ("," + bpm);
    assert DropUpper(id) + "," + bpm == DropUpper(id) + ("," + bpm);
  }

  /** Dropping the upper-case letters of a prefix leaves the frame unchanged. */
  lemma FrameDropUpper(id: string, rest: string)
    ensures W.Frame(id + rest) == W.Frame(DropUpper(id) + rest)
  {
    var a := W.MappedTones(id + rest);
    var b := W.MappedTones(DropUpper(id) + rest);
    MappedTonesDropUpper(id);
    EncodeConcat(W.CHAR_TO_FREQ, id, rest);
    EncodeConcat(W.CHAR_TO_FREQ, DropUpper(id), rest);
    assert a == b;
  }

  /** "Ab" passes the dashboard's check and goes out as "b". */
  lemma UppercaseIdExample()
    ensures F.ValidateId("Ab") && DropUpper("Ab") == "b"
  {
    assert DropUpper("Ab") == [] + DropUpper("b");
    assert DropUpper("b") == ['b'] + DropUpper([]);
  }

  /** The watch's '0' tone (3000 Hz) reads as 'y' at the older receiver. */
  lemma LegacyReadsZeroAsY()
    ensures W.CharToFreq('0') == Some(3000)
    ensures L.ClosestChar(Some(3000)) == Some('y')
  {
    assert W.CHAR_TO_FREQ[0] == ('0', 3000);
    L.ClosestCharNear(34, 3000);
  }

  /**
    Every digit the watch sends (3000 to 4800 Hz) lies within 200 Hz of one
    of the older receiver's letters 'y', 'z', 'v', 'w' or 'l', so no heart
    rate survives that receiver's table.
   */
  lemma LegacyReadsDigitsAsLetters(c: char)
    requires IsDigit(c)
    ensures W.CharToFreq(c).Some?
    ensures L.ClosestChar(W.CharToFreq(c)).Some? && IsLowerLetter(L.ClosestChar(W.CharToFreq(c)).value)
  {
    var d := c as int - '0' as int;
    var tone := W.CharToFreq(c);
    WatchDigitTone(c);
    assert tone == Some(3000 + 200 * d);
    LegacyDigitLetter(d);
  }

  /** The frequency 3000 + 200 d Hz of digit `d` reads as a letter at the older receiver. */
  lemma LegacyDigitLetter(d: int)
    requires 0 <= d < 10
    ensures var r := L.ClosestChar(Some(3000 + 200 * d)); r.Some? && IsLowerLetter(r.value)
  {
    var f := 3000 + 200 * d;
    if d <= 1 {
      LegacyNearLetter(34, f);
    } else if d <= 3 {
      LegacyNearLetter(35, f);
    } else if d <= 6 {
      LegacyNearLetter(31, f);
    } else if d <= 8 {
      LegacyNearLetter(32, f);
    } else {
      LegacyNearLetter(21, f);
    }
  }

  /** The watch plays digit `d` at 3000 + 200 d Hz. */
  lemma WatchDigitTone(c: char)
    requires IsDigit(c)
    ensures W.CharToFreq(c) == Some(3000 + 200 * (c as int - '0' as int))
  {
    var d := c as int - '0' as int;
    TablesIdentical();
    R.CharToFreqAt(d);
    assert R.CHAR_TO_FREQ[d] == R.EntryAt(d);
  }

  /** A frequency within 200 Hz of one of the older receiver's letters reads as a letter there. */
  lemma LegacyNearLetter(i: nat, f: int)
    requires 10 <= i < 36 && Dist(L.EntryAt(i).1, f) <= L.CHAR_TOLERANCE
    ensures var r := L.ClosestChar(Some(f)); r.Some? && IsLowerLetter(r.value)
  {
    assert L.CHAR_TO_FREQ[i] == L.EntryAt(i);
    L.ClosestCharNear(i, f);
  }

  /** The watch's 's' tone (8600 Hz) lies 100 Hz from the older receiver's 's' and reads as 's' there. */
  lemma LegacyReadsSAsS()
    ensures W.CharToFreq('s') == Some(8600)
    ensures L.ClosestChar(Some(8600)) == Some('s')
  {
    assert W.CHAR_TO_FREQ[28] == ('s', 8600);
    L.ClosestCharNear(28, 8600);
  }

  /** Every tone of a watch frame lies between 1200 and 11000 Hz. */
  lemma WatchFrameRange(m: string)
    ensures forall k | 0 <= k < |W.Frame(m)| :: W.START_FREQ <= W.Frame(m)[k] <= W.END_FREQ
  {
    W.FrameShape(m);
    W.TableRange();
    EncodeInTable(W.CHAR_TO_FREQ, m);
    var f := W.Frame(m);
    forall k | 1 <= k < |f| - 1
      ensures W.START_FREQ <= f[k] <= W.END_FREQ
    {
      assert f[k] == W.MappedTones(m)[k - 1];
    }
  }

  /** The frame as the older receiver's loop sees it: one detected frequency per tone. */
  function FrameFreqs(m: string): (fs: seq<Option<int>>)
    ensures |fs| == |W.Frame(m)| && forall k | 0 <= k < |fs| :: fs[k] == Some(W.Frame(m)[k])
  {
    seq(|W.Frame(m)|, k requires 0 <= k < |W.Frame(m)| => Some(W.Frame(m)[k]))
  }

  /** Frequencies of at most 11000 Hz never open a message at the older receiver. */
  lemma {:induction false} LegacyIdle(fs: seq<Option<int>>)
    requires forall k | 0 <= k < |fs| :: fs[k].None? || fs[k].value <= 11000
    ensures L.Run(L.INITIAL, fs) == L.INITIAL
    decreases |fs|
  {
    if fs != [] {
      LegacyIdle(fs[..|fs| - 1]);
    }
  }

  /**
    No tone of a watch frame is the older receiver's start or end tone, so
    an idle older receiver stays idle through a whole frame.
   */
  lemma LegacyIgnoresWatchFrame(m: string)
    ensures forall k | 0 <= k < |W.Frame(m)| ::
      !L.IsStartTone(Some(W.Frame(m)[k])) && !L.IsEndTone(Some(W.Frame(m)[k]))
    ensures L.Run(L.INITIAL, FrameFreqs(m)) == L.INITIAL
  {
    WatchFrameRange(m);
    LegacyIdle(FrameFreqs(m));
  }
}

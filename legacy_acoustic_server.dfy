/**
  The older receiver snapshot (Server/acoustic_server.py): a table on a
  500 Hz grid with its own start and end tones, and a three-way state
  machine with no timing: a start tone opens a message, an end tone closes
  and processes it, and any other tone appends its character while a
  message is open.

  The FFT is an oracle: the listen loop is driven by the dominant frequency
  of each chunk (None when the chunk is too quiet), which is all the loop
  uses of the audio.
 */
module LegacyAcousticServer {
  import opened Wrappers
  import opened Text
  import opened FreqTable

  /**
    The entry at position `i` of CHAR_TO_FREQ: '0'..'k' from 10000 Hz up,
    'l'..'u' from 5000 Hz, 'v' and 'w' from 4000 Hz, 'x'..'z' from 2500 Hz,
    all 500 Hz apart, then '-' and ','.
   */
  function EntryAt(i: nat): (char, int)
    requires i < 38
  {
    if i < 36 then
      (if i < 10 then (('0' as int) + i) as char else (('a' as int) + i - 10) as char,
       if i <= 20 then 10000 + 500 * i
       else if i <= 30 then 5000 + 500 * (i - 21)
       else if i <= 32 then 4000 + 500 * (i - 31)
       else 2500 + 500 * (i - 33))
    else if i == 36 then ('-', 20500)
    else (',', 21000)
  }

  function Entries(): (t: Table)
    ensures |t| == 38 && forall i | 0 <= i < 38 :: t[i] == EntryAt(i)
  {
    seq(38, i requires 0 <= i < 38 => EntryAt(i))
  }

  /** CHAR_TO_FREQ, in the dictionary's insertion order. */
  const CHAR_TO_FREQ: Table := Entries()

  /** The table as the module lists it. */
  lemma TableLiteral()
    ensures CHAR_TO_FREQ == [
    ('0', 10000), ('1', 10500), ('2', 11000), ('3', 11500), ('4', 12000),
    ('5', 12500), ('6', 13000), ('7', 13500), ('8', 14000), ('9', 14500),
    ('a', 15000), ('b', 15500), ('c', 16000), ('d', 16500), ('e', 17000), ('f', 17500),
    ('g', 18000), ('h', 18500), ('i', 19000), ('j', 19500), ('k', 20000), ('l', 5000),
    ('m', 5500), ('n', 6000), ('o', 6500), ('p', 7000), ('q', 7500), ('r', 8000),
    ('s', 8500), ('t', 9000), ('u', 9500), ('v', 4000), ('w', 4500), ('x', 2500),
    ('y', 3000), ('z', 3500),
    ('-', 20500), (',', 21000)
  ]
  {
  }

  const START_FREQ := 21500
  const END_FREQ := 22000
  /** A start or end tone is recognised strictly within this distance. */
  const SENTINEL_TOLERANCE := 200
  /** A character is recognised at most this far from its frequency. */
  const CHAR_TOLERANCE := 200

  /** The keys of FREQ_TO_CHAR, in iteration order. */
  function Freqs(): seq<int> {
    FreqsOf(CHAR_TO_FREQ)
  }

  function CharToFreq(c: char): Option<int> {
    LookupChar(CHAR_TO_FREQ, c)
  }

  /** `FREQ_TO_CHAR.get(f)`. */
  function FreqToChar(f: int): Option<char> {
    LookupFreq(CHAR_TO_FREQ, f)
  }

  /** `_get_closest_char`. */
  function ClosestChar(freq: Option<int>): Option<char> {
    match freq
    case None => None
    case Some(f) =>
      var k := Freqs()[Nearest(Freqs(), f)];
      if Dist(k, f) > CHAR_TOLERANCE then None else FreqToChar(k)
  }

  /** Python truthiness of the detected frequency: None and 0 are false. */
  predicate Truthy(freq: Option<int>) {
    freq.Some? && freq.value != 0
  }

  predicate IsStartTone(freq: Option<int>) {
    Truthy(freq) && Dist(freq.value, START_FREQ) < SENTINEL_TOLERANCE
  }

  predicate IsEndTone(freq: Option<int>) {
    Truthy(freq) && Dist(freq.value, END_FREQ) < SENTINEL_TOLERANCE
  }

  // ---------------------------------------------------------------------------
  // Properties of the table
  // ---------------------------------------------------------------------------

  /** Every table frequency is a multiple of 500 between 2500 and 21000 Hz. */
  lemma TableGrid()
    ensures |CHAR_TO_FREQ| == 38
    ensures forall i | 0 <= i < |CHAR_TO_FREQ| ::
      CHAR_TO_FREQ[i].1 % 500 == 0 && 2500 <= CHAR_TO_FREQ[i].1 <= 21000
  {
  }

  /** No character occurs twice in the table. */
  lemma CharsUnique()
    ensures forall i, j | 0 <= i < j < |CHAR_TO_FREQ| :: CHAR_TO_FREQ[i].0 != CHAR_TO_FREQ[j].0
  {
  }

  /** No frequency occurs twice in the table. */
  lemma FrequenciesUnique()
    ensures forall i, j | 0 <= i < j < |CHAR_TO_FREQ| :: CHAR_TO_FREQ[i].1 != CHAR_TO_FREQ[j].1
  {
  }

  /** Two different multiples of 500 are at least 500 apart. */
  lemma MultiplesApart(a: int, b: int)
    requires a % 500 == 0 && b % 500 == 0 && a != b
    ensures Dist(a, b) >= 500
  {
    var x := a / 500;
    var y := b / 500;
    assert a == 500 * x && b == 500 * y;
    assert x != y;
  }

  /**
    The 38 table frequencies and the two sentinels are distinct multiples of
    500, so any two of them are at least 500 Hz apart.
   */
  lemma FrequencySeparation()
    ensures forall i, j | 0 <= i < |Freqs()| && 0 <= j < |Freqs()| && i != j :: Dist(Freqs()[i], Freqs()[j]) >= 500
    ensures forall i | 0 <= i < |Freqs()| :: Dist(Freqs()[i], START_FREQ) >= 500 && Dist(Freqs()[i], END_FREQ) >= 500
    ensures Dist(START_FREQ, END_FREQ) >= 500
  {
    TableGrid();
    FrequenciesUnique();
    forall i, j | 0 <= i < |Freqs()| && 0 <= j < |Freqs()| && i != j
      ensures Dist(Freqs()[i], Freqs()[j]) >= 500
    {
      if i < j {
        MultiplesApart(Freqs()[i], Freqs()[j]);
      } else {
        MultiplesApart(Freqs()[j], Freqs()[i]);
      }
    }
  }

  /** Each table entry is found by both lookups: FREQ_TO_CHAR[CHAR_TO_FREQ[c]] == c. */
  lemma CharToFreqAt(i: nat)
    requires i < |CHAR_TO_FREQ|
    ensures CharToFreq(CHAR_TO_FREQ[i].0) == Some(CHAR_TO_FREQ[i].1)
    ensures FreqToChar(CHAR_TO_FREQ[i].1) == Some(CHAR_TO_FREQ[i].0)
  {
    CharsUnique();
    FrequenciesUnique();
    LookupAt(CHAR_TO_FREQ, i);
  }

  /**
    A frequency at most 200 Hz from an entry maps to that entry's character:
    the tolerance is under half the spacing, so the match is unique.
   */
  lemma ClosestCharNear(i: nat, f: int)
    requires i < |CHAR_TO_FREQ| && Dist(CHAR_TO_FREQ[i].1, f) <= CHAR_TOLERANCE
    ensures ClosestChar(Some(f)) == Some(CHAR_TO_FREQ[i].0)
  {
    FrequencySeparation();
    NearestWithin(Freqs(), i, f, 500);
    CharToFreqAt(i);
  }

  /**
    `_get_closest_char` answers None for no frequency, and otherwise a
    character exactly when some table frequency lies within 200 Hz.
   */
  lemma ClosestCharSpec(freq: Option<int>)
    ensures freq.None? ==> ClosestChar(freq).None?
    ensures freq.Some? ==>
      (ClosestChar(freq).Some? <==> exists i | 0 <= i < |Freqs()| :: Dist(Freqs()[i], freq.value) <= CHAR_TOLERANCE)
  {
    if freq.Some? {
      var f := freq.value;
      var n := Nearest(Freqs(), f);
      if Dist(Freqs()[n], f) <= CHAR_TOLERANCE {
        CharToFreqAt(n);
      }
    }
  }

  /** Round trip of the table: the exact frequency of character `c` maps back to `c`. */
  lemma ClosestCharOfFreq(c: char)
    requires CharToFreq(c).Some?
    ensures ClosestChar(CharToFreq(c)) == Some(c)
  {
    var i :| 0 <= i < |CHAR_TO_FREQ| && CHAR_TO_FREQ[i] == (c, CharToFreq(c).value);
    ClosestCharNear(i, CHAR_TO_FREQ[i].1);
  }

  // ---------------------------------------------------------------------------
  // The state machine
  // ---------------------------------------------------------------------------

  /**
    The receiver's state: `is_recording`, `message_buffer` (joined into a
    string), and every (diver ID, BPM) pair handed to the diver lookup.
   */
  datatype Receiver = Receiver(recording: bool, buffer: string, updates: seq<(string, int)>)

  const INITIAL := Receiver(false, [], [])

  /**
    `process_message`: an empty buffer is left alone; otherwise the message
    is accepted when it splits at ',' into exactly two parts and the second
    parses as an integer, and the buffer is emptied either way.
   */
  function Processed(s: Receiver): Receiver {
    if s.buffer == [] then s
    else
      var parts := Split(s.buffer, ',');
      if |parts| == 2 && ParseInt(parts[1]).Some? then
        s.(buffer := [], updates := s.updates + [(parts[0], ParseInt(parts[1]).value)])
      else s.(buffer := [])
  }

  /** One iteration of the listen loop, for the chunk's dominant frequency. */
  function OnChunk(s: Receiver, freq: Option<int>): Receiver {
    if IsStartTone(freq) then
      if !s.recording then s.(recording := true, buffer := []) else s
    else if IsEndTone(freq) then
      if s.recording then Processed(s.(recording := false)) else s
    else if s.recording then
      match ClosestChar(freq)
      case Some(c) => s.(buffer := s.buffer + [c])
      case None => s
    else s
  }

  /** The listen loop over the dominant frequencies of a run of chunks. */
  function Run(s: Receiver, freqs: seq<Option<int>>): Receiver
    decreases |freqs|
  {
    if freqs == [] then s else OnChunk(Run(s, freqs[..|freqs| - 1]), freqs[|freqs| - 1])
  }

  /** A start tone opens an empty message when none is open and changes nothing otherwise; it never appends. */
  lemma StartTone(s: Receiver, freq: Option<int>)
    requires IsStartTone(freq)
    ensures !s.recording ==> OnChunk(s, freq) == s.(recording := true, buffer := [])
    ensures s.recording ==> OnChunk(s, freq) == s
  {
  }

  /** An end tone closes and processes an open message, and does nothing otherwise. */
  lemma EndTone(s: Receiver, freq: Option<int>)
    requires IsEndTone(freq)
    ensures s.recording ==> OnChunk(s, freq) == Processed(s.(recording := false))
    ensures !s.recording ==> OnChunk(s, freq) == s
  {
    FrequencySeparation();
  }

  /**
    Any other chunk appends at most one character, only while recording, and
    only a character whose frequency lies within 200 Hz.
   */
  lemma OtherTone(s: Receiver, freq: Option<int>)
    requires !IsStartTone(freq) && !IsEndTone(freq)
    ensures var r := OnChunk(s, freq);
      && r.recording == s.recording && r.updates == s.updates
      && (r.buffer == s.buffer || (s.recording && exists i | 0 <= i < |CHAR_TO_FREQ| ::
            r.buffer == s.buffer + [CHAR_TO_FREQ[i].0] && Dist(CHAR_TO_FREQ[i].1, freq.value) <= CHAR_TOLERANCE))
  {
    var r := OnChunk(s, freq);
    if r.buffer != s.buffer {
      var f := freq.value;
      var n := Nearest(Freqs(), f);
      CharToFreqAt(n);
      assert r.buffer == s.buffer + [CHAR_TO_FREQ[n].0];
    }
  }

  /**
    `process_message` does nothing on an empty buffer, always leaves the
    buffer empty, and records an update exactly when the message holds one
    comma and an integer after it.
   */
  lemma ProcessMessageSpec(s: Receiver)
    ensures s.buffer == [] ==> Processed(s) == s
    ensures Processed(s).buffer == [] && Processed(s).recording == s.recording
    ensures s.buffer != [] ==>
      var parts := Split(s.buffer, ',');
      (|Processed(s).updates| == |s.updates| + 1 <==> Count(s.buffer, ',') == 1 && ParseInt(parts[1]).Some?)
    ensures Processed(s).updates == s.updates || Processed(s).updates[..|s.updates|] == s.updates
  {
    var r := Processed(s);
    if |r.updates| != |s.updates| {
      assert r.updates[..|s.updates|] == s.updates;
    }
  }

  /** A message "id,bpm" with a comma-free ID and a digit BPM is accepted with exactly that ID and value. */
  lemma AcceptsIdAndBpm(s: Receiver, id: string, bpm: string)
    requires s.buffer == id + "," + bpm && ',' !in id && IsDigitString(bpm)
    ensures Processed(s).updates == s.updates + [(id, DigitsValue(bpm))]
  {
    assert forall k | 0 <= k < |bpm| :: bpm[k] != ',';
    var m := s.buffer;
    assert m[..|id|] == id && m[|id|] == ',' && m[|id| + 1..] == bpm;
    SplitOnce(m, ',', |id|);
  }

  /**
    The state invariant: a closed receiver holds an empty buffer, and the
    buffer only ever holds table characters.
   */
  ghost predicate ReceiverInv(s: Receiver) {
    && (!s.recording ==> s.buffer == [])
    && forall k | 0 <= k < |s.buffer| :: InTable(s.buffer[k])
  }

  predicate InTable(c: char) {
    exists i | 0 <= i < |CHAR_TO_FREQ| :: CHAR_TO_FREQ[i].0 == c
  }

  lemma {:induction false} RunKeepsInv(s: Receiver, freqs: seq<Option<int>>)
    requires ReceiverInv(s)
    ensures ReceiverInv(Run(s, freqs))
    decreases |freqs|
  {
    if freqs != [] {
      var n := |freqs| - 1;
      RunKeepsInv(s, freqs[..n]);
      var m := Run(s, freqs[..n]);
      var freq := freqs[n];
      if m.recording && !IsStartTone(freq) && !IsEndTone(freq) {
        var c := ClosestChar(freq);
        if c.Some? {
          var k := Freqs()[Nearest(Freqs(), freq.value)];
          var i :| 0 <= i < |CHAR_TO_FREQ| && CHAR_TO_FREQ[i] == (c.value, k);
          assert InTable(c.value);
        }
      }
    }
  }

  // ---------------------------------------------------------------------------
  // The receiver object
  // ---------------------------------------------------------------------------

  /** The receiver object and the fields `listen` and `process_message` update in place. */
  class LegacyServer {
    var isRecording: bool
    var messageBuffer: string
    /** The (diver ID, BPM) pairs handed to the diver lookup, in order. */
    var updates: seq<(string, int)>

    function State(): Receiver
      reads this
    {
      Receiver(isRecording, messageBuffer, updates)
    }

    constructor ()
      ensures State() == INITIAL
    {
      isRecording := false;
      messageBuffer := [];
      updates := [];
    }

    /** `process_message`, with the buffer cleared in the `finally` clause. */
    method ProcessMessage()
      modifies this`messageBuffer, this`updates
      ensures State() == Processed(old(State()))
    {
      if messageBuffer == [] {
        return;
      }
      var fullMessage := messageBuffer;
      var parts := Split(fullMessage, ',');
      if |parts| == 2 {
        var bpm := ParseInt(parts[1]);
        if bpm.Some? {
          updates := updates + [(parts[0], bpm.value)];
        }
      }
      messageBuffer := [];
    }

    /** One iteration of `listen`'s loop, for the chunk's dominant frequency. */
    method ListenStep(dominantFreq: Option<int>)
      modifies this
      ensures State() == OnChunk(old(State()), dominantFreq)
    {
      if Truthy(dominantFreq) && Dist(dominantFreq.value, START_FREQ) < SENTINEL_TOLERANCE {
        if !isRecording {
          isRecording := true;
          messageBuffer := [];
        }
        return;
      }
      if Truthy(dominantFreq) && Dist(dominantFreq.value, END_FREQ) < SENTINEL_TOLERANCE {
        if isRecording {
          isRecording := false;
          ProcessMessage();
        }
        return;
      }
      if isRecording {
        var c := ClosestChar(dominantFreq);
        if c.Some? {
          messageBuffer := messageBuffer + [c.value];
        }
      }
    }

    /** `listen` over a finite run of chunks, given their dominant frequencies. */
    method Listen(freqs: seq<Option<int>>)
      modifies this
      ensures State() == Run(old(State()), freqs)
    {
      var i := 0;
      while i < |freqs|
        invariant 0 <= i <= |freqs|
        invariant State() == Run(old(State()), freqs[..i])
      {
        assert freqs[..i + 1][..i] == freqs[..i];
        ListenStep(freqs[i]);
        i := i + 1;
      }
      assert freqs[..i] == freqs;
    }
  }
}

/**
  Lookups shared by the transmitter and both receivers: a character/frequency
  table kept as a sequence of pairs in the dictionary's insertion order, the
  two directions of lookup in it, and Python's "nearest key" search.
 */
module FreqTable {
  import opened Wrappers

  /** A character/frequency table in insertion order. */
  type Table = seq<(char, int)>

  function Dist(a: int, b: int): (d: nat)
    ensures d == a - b || d == b - a
    ensures a - b <= d && b - a <= d
  {
    if a < b then b - a else a - b
  }

  /** The frequencies of a table, in order. */
  function FreqsOf(items: Table): (fs: seq<int>)
    ensures |fs| == |items|
    ensures forall i | 0 <= i < |fs| :: fs[i] == items[i].1
  {
    seq(|items|, i requires 0 <= i < |items| => items[i].1)
  }

  predicate KeysDistinct(items: Table) {
    forall i, j | 0 <= i < j < |items| :: items[i].0 != items[j].0
  }

  predicate FreqsDistinct(items: Table) {
    forall i, j | 0 <= i < j < |items| :: items[i].1 != items[j].1
  }

  /** `table.get(c)` for a table whose keys are distinct. */
  function LookupChar(items: Table, c: char): (r: Option<int>)
    ensures r.Some? <==> exists i :: 0 <= i < |items| && items[i].0 == c
    ensures r.Some? ==> exists i :: 0 <= i < |items| && items[i] == (c, r.value)
  {
    if items == [] then None
    else if items[0].0 == c then Some(items[0].1)
    else
      var r := LookupChar(items[1..], c);
      assert forall i | 0 <= i < |items[1..]| :: items[1..][i] == items[i + 1];
      r
  }

  /**
    `{v: k for k, v in table.items()}.get(f)`: a later entry with the same
    frequency overwrites an earlier one, so the search runs from the back.
   */
  function LookupFreq(items: Table, f: int): (r: Option<char>)
    ensures r.Some? <==> exists i :: 0 <= i < |items| && items[i].1 == f
    ensures r.Some? ==> exists i :: 0 <= i < |items| && items[i] == (r.value, f)
    decreases |items|
  {
    if items == [] then None
    else if LastEntry(items).1 == f then Some(LastEntry(items).0)
    else LookupFreq(items[..|items| - 1], f)
  }

  function LastEntry(items: Table): (char, int)
    requires |items| > 0
  {
    items[|items| - 1]
  }

  /** In a table with distinct characters and distinct frequencies, each entry is found by both lookups. */
  lemma LookupAt(items: Table, i: nat)
    requires KeysDistinct(items) && FreqsDistinct(items) && i < |items|
    ensures LookupChar(items, items[i].0) == Some(items[i].1)
    ensures LookupFreq(items, items[i].1) == Some(items[i].0)
  {
    var r := LookupChar(items, items[i].0);
    var w :| 0 <= w < |items| && items[w] == (items[i].0, r.value);
    assert w == i;
    var q := LookupFreq(items, items[i].1);
    var v :| 0 <= v < |items| && items[v] == (q.value, items[i].1);
    assert v == i;
  }

  /**
    Python's `min(keys, key=lambda k: abs(k - f))` as an index: the first
    key at the least distance from `f`.
   */
  function Nearest(keys: seq<int>, f: int): (i: nat)
    requires |keys| > 0
    ensures i < |keys|
    ensures forall j | 0 <= j < |keys| :: Dist(keys[i], f) <= Dist(keys[j], f)
    ensures forall j | 0 <= j < i :: Dist(keys[j], f) > Dist(keys[i], f)
    decreases |keys|
  {
    if |keys| == 1 then 0
    else
      var i := Nearest(keys[..|keys| - 1], f);
      if Dist(keys[|keys| - 1], f) < Dist(keys[i], f) then |keys| - 1 else i
  }

  /**
    When key `i` lies at least `sep` from every other key, a frequency closer
    than `sep / 2` to it has key `i` as its nearest key.
   */
  lemma NearestWithin(keys: seq<int>, i: nat, f: int, sep: int)
    requires i < |keys|
    requires forall j | 0 <= j < |keys| && j != i :: Dist(keys[i], keys[j]) >= sep
    requires 2 * Dist(keys[i], f) < sep
    ensures Nearest(keys, f) == i
  {
    var n := Nearest(keys, f);
    assert Dist(keys[n], f) <= Dist(keys[i], f);
    assert Dist(keys[i], keys[n]) <= Dist(keys[i], f) + Dist(keys[n], f);
  }

  // ---------------------------------------------------------------------------
  // Encoding a message through a table
  // ---------------------------------------------------------------------------

  /** The frequencies of the characters of `message` that the table knows, in order; other characters are skipped. */
  function Encode(items: Table, message: string): (tones: seq<int>)
    ensures |tones| <= |message|
    decreases |message|
  {
    if message == [] then []
    else
      var rest := Encode(items, message[..|message| - 1]);
      match LookupChar(items, message[|message| - 1])
      case Some(f) => rest + [f]
      case None => rest
  }

  /** `f` is the frequency of some entry. */
  predicate HasFreq(items: Table, f: int) {
    exists i | 0 <= i < |items| :: items[i].1 == f
  }

  /** Encoding a concatenation encodes each part in turn. */
  lemma {:induction false} EncodeConcat(items: Table, a: string, b: string)
    ensures Encode(items, a + b) == Encode(items, a) + Encode(items, b)
    decreases |b|
  {
    if b == [] {
      assert a + b == a;
    } else {
      var n := |b| - 1;
      assert (a + b)[..|a + b| - 1] == a + b[..n];
      assert (a + b)[|a + b| - 1] == b[n];
      EncodeConcat(items, a, b[..n]);
    }
  }

  /** A single character encodes to its frequency, or to nothing when the table does not know it. */
  lemma EncodeChar(items: Table, c: char)
    ensures Encode(items, [c]) == if LookupChar(items, c).Some? then [LookupChar(items, c).value] else []
  {
    assert [c][..0] == [];
  }

  /** When the table knows every character, the encoding has one frequency per character, in order. */
  lemma {:induction false} EncodeAllMapped(items: Table, message: string)
    requires forall k | 0 <= k < |message| :: LookupChar(items, message[k]).Some?
    ensures |Encode(items, message)| == |message|
    ensures forall k | 0 <= k < |message| :: Encode(items, message)[k] == LookupChar(items, message[k]).value
    decreases |message|
  {
    if message != [] {
      var n := |message| - 1;
      var prefix := message[..n];
      assert forall k | 0 <= k < n :: prefix[k] == message[k];
      EncodeAllMapped(items, prefix);
      var rest := Encode(items, prefix);
      var tones := Encode(items, message);
      assert tones == rest + [LookupChar(items, message[n]).value];
      forall k | 0 <= k < |message|
        ensures tones[k] == LookupChar(items, message[k]).value
      {
        if k < n {
          assert tones[k] == rest[k];
          assert prefix[k] == message[k];
        }
      }
    }
  }

  /** Every frequency of an encoding belongs to the table. */
  lemma {:induction false} EncodeInTable(items: Table, message: string)
    ensures forall k | 0 <= k < |Encode(items, message)| :: HasFreq(items, Encode(items, message)[k])
    decreases |message|
  {
    if message != [] {
      var n := |message| - 1;
      EncodeInTable(items, message[..n]);
      var r := LookupChar(items, message[n]);
      if r.Some? {
        var i :| 0 <= i < |items| && items[i] == (message[n], r.value);
        assert HasFreq(items, r.value);
      }
    }
  }
}

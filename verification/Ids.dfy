/** Identifiers made from the clock, and how they come back out of file names. */
module Ids {
  import opened CText

  const WORD: nat := 0x1_0000_0000
  const MAX_TIME: nat := 0x8000_0000_0000_0000

  /** What the clock shows: seconds in a `time_t`. */
  type Time = t: nat | t < MAX_TIME

  function Pow16(n: nat): nat {
    if n == 0 then 1 else 16 * Pow16(n - 1)
  }

  /** The low `n` hexadecimal digits of `v`. */
  function HexDigits(v: nat, n: nat): (s: string)
    ensures |s| == n && forall c :: c in s ==> IsHex(c)
  {
    if n == 0 then "" else HexDigits(v / 16, n - 1) + [Digit(v % 16)]
  }

  predicate IsHex(c: char) {
    '0' <= c <= '9' || 'a' <= c <= 'f'
  }

  function HexDigitValue(c: char): int {
    if IsDigit(c) then DigitValue(c) else c as int - 'a' as int + 10
  }

  function HexValue(s: string): int {
    if s == "" then 0 else 16 * HexValue(s[..|s| - 1]) + HexDigitValue(s[|s| - 1])
  }

  lemma DigitReadsBack(d: nat)
    requires d < 16
    ensures HexDigitValue(Digit(d)) == d
  {}

  lemma HexValueAppend(s: string, c: char)
    ensures HexValue(s + [c]) == 16 * HexValue(s) + HexDigitValue(c)
  {
    assert (s + [c])[..|s|] == s;
  }

  lemma {:induction false} HexRoundTrip(v: nat, n: nat)
    requires v < Pow16(n)
    ensures HexValue(HexDigits(v, n)) == v
  {
    if n == 0 {
    } else {
      var high, low := v / 16, v % 16;
      HexRoundTrip(high, n - 1);
      DigitReadsBack(low);
      HexValueAppend(HexDigits(high, n - 1), Digit(low));
    }
  }

  /** `%08x` of an `unsigned int`, which has eight digits at most. */
  function Hex8(v: nat): (s: string)
    requires v < WORD
    ensures |s| == 8 && forall c :: c in s ==> IsHex(c)
  {
    HexDigits(v, 8)
  }

  /** The two halves of the clock, low word first. */
  function TimeHex(now: nat): (s: string)
    ensures |s| == 16 && forall c :: c in s ==> IsHex(c)
  {
    Hex8(now % WORD) + Hex8(now / WORD % WORD)
  }

  /** `generate_container_id`. */
  function ContainerId(now: nat): (id: string)
    ensures |id| == 21 && forall c :: c in id ==> IsHex(c) || c in "cont_"
  {
    "cont_" + TimeHex(now)
  }

  function Decode(id: string): int
    requires |id| == 21
  {
    HexValue(id[5..13]) + WORD * HexValue(id[13..])
  }

  lemma Pow16Of8()
    ensures Pow16(8) == WORD
  {
    assert Pow16(4) == 65536;
    assert Pow16(8) == 16 * 16 * 16 * 16 * Pow16(4);
  }

  lemma DecodeHalves(low: nat, high: nat)
    requires low < WORD && high < WORD
    ensures Decode("cont_" + (Hex8(low) + Hex8(high))) == low + WORD * high
  {
    Pow16Of8();
    HexRoundTrip(low, 8);
    HexRoundTrip(high, 8);
    var id := "cont_" + (Hex8(low) + Hex8(high));
    assert id[5..13] == Hex8(low) && id[13..] == Hex8(high);
  }

  lemma TimeHalves(now: nat)
    requires now < MAX_TIME
    ensures now / WORD < WORD && now / WORD % WORD == now / WORD
    ensures now % WORD + WORD * (now / WORD) == now
  {}

  /** An id determines the second it was made in. */
  lemma IdDecodes(now: nat)
    requires now < MAX_TIME
    ensures Decode(ContainerId(now)) == now
  {
    TimeHalves(now);
    var low, high := now % WORD, now / WORD % WORD;
    DecodeHalves(low, high);
  }

  lemma DistinctSecondsDistinctIds(a: nat, b: nat)
    requires a < MAX_TIME && b < MAX_TIME && a != b
    ensures ContainerId(a) != ContainerId(b)
  {
    IdDecodes(a);
    IdDecodes(b);
  }

  /** `sscanf(entry, "%[^.].json", id)`. */
  function Stem(entry: string): Option<string> {
    var s := Before(entry, '.');
    if s == "" then None else Some(s)
  }

  /** Whatever follows the first dot is not looked at. */
  lemma StemBeforeDot(name: string, rest: string)
    requires name != "" && '.' !in name
    ensures Stem(name + "." + rest) == Some(name)
  {
    BeforeStop(name, '.', rest);
    assert name + "." + rest == name + ['.'] + rest;
  }

  lemma IdSurvivesFileName(now: nat)
    ensures Contains(ContainerId(now) + ".json", ".json")
    ensures Stem(ContainerId(now) + ".json") == Some(ContainerId(now))
  {
    var id := ContainerId(now);
    assert '.' !in id;
    BeforeStop(id, '.', "json");
    assert id + ".json" == id + ['.'] + "json";
    assert At(id + ".json", ".json", |id|);
  }

  lemma HexStep(v: nat, n: nat, head: string, d: nat, c: char)
    requires d < 16 && Digit(d) == c && HexDigits(v, n) == head
    ensures HexDigits(16 * v + d, n + 1) == head + [c]
  {
    assert (16 * v + d) / 16 == v && (16 * v + d) % 16 == d;
  }

  /** Most significant digit first, with letters from ten on. */
  lemma HexSpelled()
    ensures HexDigits(0x9ade, 4) == "9ade"
  {
    HexStep(0, 0, "", 9, '9');
    HexStep(9, 1, "9", 10, 'a');
    HexStep(0x9a, 2, "9a", 13, 'd');
    HexStep(0x9ad, 3, "9ad", 14, 'e');
  }

  lemma LowHalf(now: nat)
    requires now < WORD
    ensures now % WORD == now && now / WORD % WORD == 0
  {}

  /** The low half of the time comes first, and the high half is zero until 2106. */
  lemma IdSpelled(now: nat)
    requires now < WORD
    ensures ContainerId(now) == "cont_" + (Hex8(now) + Hex8(0))
  {
    LowHalf(now);
  }
}

/** `System.Guid` as its 32 hexadecimal digits, with the "D" text format that `ToString()`
    writes (8-4-4-4-12 digits separated by hyphens, lower case) and `Guid.TryParse` reads back. */
module Guids {
  import opened Wrappers

  type HexDigit = d: nat | d < 16

  /** A GUID, identified by its 32 hexadecimal digits in text order. */
  type Guid = s: seq<HexDigit> | |s| == 32 witness [0, 0, 0, 0, 0, 0, 0, 0, 0, 0, 0, 0, 0, 0, 0, 0, 0, 0, 0, 0, 0, 0, 0, 0, 0, 0, 0, 0, 0, 0, 0, 0]

  /** `Guid.Empty`. */
  const Empty: Guid := [0, 0, 0, 0, 0, 0, 0, 0, 0, 0, 0, 0, 0, 0, 0, 0, 0, 0, 0, 0, 0, 0, 0, 0, 0, 0, 0, 0, 0, 0, 0, 0]

  /** Whether position `p` of the "D" format holds a hyphen. */
  predicate IsHyphenAt(p: nat) {
    p == 8 || p == 13 || p == 18 || p == 23
  }

  /** Position in the "D" text of digit `k`. */
  function PositionOf(k: nat): (p: nat)
    requires k < 32
    ensures p < 36 && !IsHyphenAt(p)
  {
    if k < 8 then k else if k < 12 then k + 1 else if k < 16 then k + 2 else if k < 20 then k + 3 else k + 4
  }

  /** Digit index shown at a non-hyphen position `p` of the "D" text. */
  function DigitAt(p: nat): (k: nat)
    requires p < 36 && !IsHyphenAt(p)
    ensures k < 32 && PositionOf(k) == p
  {
    if p < 8 then p else if p < 13 then p - 1 else if p < 18 then p - 2 else if p < 23 then p - 3 else p - 4
  }

  /** Lower-case hexadecimal character of a digit. */
  function HexChar(d: HexDigit): char {
    if d < 10 then (d + '0' as int) as char else (d - 10 + 'a' as int) as char
  }

  /** `c` with the upper-case hexadecimal letters `A`..`F` made lower case. */
  function LowerHex(c: char): char {
    if 'A' <= c <= 'F' then (c as int + 32) as char else c
  }

  /** Value of a hexadecimal character of either case: printing it gives the character back,
      in lower case. */
  function HexValue(c: char): (r: Option<HexDigit>)
    ensures r.Some? ==> HexChar(r.value) == LowerHex(c)
  {
    if '0' <= c <= '9' then Some(c as int - '0' as int)
    else if 'a' <= c <= 'f' then Some(c as int - 'a' as int + 10)
    else if 'A' <= c <= 'F' then Some(c as int - 'A' as int + 10)
    else None
  }

  /** `g.ToString()`: the "D" format. */
  function ToString(g: Guid): (s: string)
    ensures |s| == 36
  {
    seq(36, p requires 0 <= p < 36 => if IsHyphenAt(p) then '-' else HexChar(g[DigitAt(p)]))
  }

  /** `Guid.TryParse(s, out g)` for the "D" format (hex digits of either case): a GUID it
      reads prints as `s` with its hexadecimal letters in lower case. */
  function TryParse(s: string): (r: Option<Guid>)
    ensures r.Some? ==> ToString(r.value) == seq(|s|, p requires 0 <= p < |s| => LowerHex(s[p]))
  {
    if |s| == 36
       && (forall p :: 0 <= p < 36 && IsHyphenAt(p) ==> s[p] == '-')
       && (forall p :: 0 <= p < 36 && !IsHyphenAt(p) ==> HexValue(s[p]).Some?)
    then
      var g: Guid := seq(32, k requires 0 <= k < 32 => HexValue(s[PositionOf(k)]).value);
      assert forall p :: 0 <= p < 36 && !IsHyphenAt(p) ==> g[DigitAt(p)] == HexValue(s[p]).value;
      Some(g)
    else None
  }

  lemma HexRoundTrip(d: HexDigit)
    ensures HexValue(HexChar(d)) == Some(d)
  {
  }

  /** Parsing the text of a GUID gives the same GUID back. */
  lemma ParseToString(g: Guid)
    ensures TryParse(ToString(g)) == Some(g)
  {
    var s := ToString(g);
    forall p | 0 <= p < 36 && !IsHyphenAt(p) ensures HexValue(s[p]) == Some(g[DigitAt(p)]) {
      HexRoundTrip(g[DigitAt(p)]);
    }
    var parsed: seq<HexDigit> := seq(32, k requires 0 <= k < 32 => HexValue(s[PositionOf(k)]).value);
    forall k | 0 <= k < 32 ensures parsed[k] == g[k] {
      assert DigitAt(PositionOf(k)) == k;
    }
    assert parsed == g;
  }

  /** Distinct GUIDs have distinct texts. */
  lemma ToStringInjective(g: Guid, h: Guid)
    requires ToString(g) == ToString(h)
    ensures g == h
  {
    ParseToString(g);
    ParseToString(h);
  }
}

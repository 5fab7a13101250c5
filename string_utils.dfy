/** StringUtils.KeyFriendlyString: the normalisation applied to save-file keys. */
module StringUtils {
  /** The character String.Replace(' ', '_') puts in place of c. */
  function SpaceToUnderscore(c: char): char
  {
    if c == ' ' then '_' else c
  }

  /** An upper-case letter whose invariant lower-case form lies 32 code
      points above it: ASCII, Latin-1, basic Greek and basic Cyrillic. */
  predicate UpperBy32(c: char)
  {
    var n := c as int;
    (0x41 <= n <= 0x5A) || (0xC0 <= n <= 0xDE && n != 0xD7)
    || (0x391 <= n <= 0x3A9 && n != 0x3A2) || (0x410 <= n <= 0x42F)
  }

  /** A Cyrillic upper-case letter (Ѐ to Џ) whose lower-case form lies 80
      code points above it. */
  predicate UpperBy80(c: char)
  {
    0x400 <= c as int <= 0x40F
  }

  /** Char.ToLowerInvariant on the letters of the ranges above; every other
      character is kept. */
  function LowerChar(c: char): (r: char)
    ensures UpperBy32(c) ==> r as int == c as int + 32
    ensures UpperBy80(c) ==> r as int == c as int + 80
    ensures !UpperBy32(c) && !UpperBy80(c) ==> r == c
    ensures !UpperBy32(r) && !UpperBy80(r)
  {
    if UpperBy32(c) then (c as int + 32) as char
    else if UpperBy80(c) then (c as int + 80) as char
    else c
  }

  /** String.Replace(' ', '_'). */
  function ReplaceSpaces(s: string): (r: string)
    ensures |r| == |s|
    ensures forall i :: 0 <= i < |s| ==> r[i] == SpaceToUnderscore(s[i])
  {
    if s == [] then [] else [SpaceToUnderscore(s[0])] + ReplaceSpaces(s[1..])
  }

  /** String.ToLowerInvariant. */
  function ToLowerInvariant(s: string): (r: string)
    ensures |r| == |s|
    ensures forall i :: 0 <= i < |s| ==> r[i] == LowerChar(s[i])
  {
    if s == [] then [] else [LowerChar(s[0])] + ToLowerInvariant(s[1..])
  }

  function KeyFriendlyString(input: string): (r: string)
  {
    ToLowerInvariant(ReplaceSpaces(input))
  }

  /** Each ' ' becomes '_', each upper-case letter of the modelled ranges
      its lower-case form, and every other character is kept; the length is
      unchanged. */
  lemma KeyFriendlyCharwise(input: string)
    ensures |KeyFriendlyString(input)| == |input|
    ensures forall i :: 0 <= i < |input| ==>
      KeyFriendlyString(input)[i] ==
        (if input[i] == ' ' then '_'
         else if UpperBy32(input[i]) then (input[i] as int + 32) as char
         else if UpperBy80(input[i]) then (input[i] as int + 80) as char
         else input[i])
  {
  }

  /** A normalised key never contains a space. */
  lemma KeyFriendlyHasNoSpace(input: string)
    ensures ' ' !in KeyFriendlyString(input)
  {
    var r := KeyFriendlyString(input);
    forall i | 0 <= i < |r| ensures r[i] != ' ' {
      KeyFriendlyCharwise(input);
    }
  }

  /** Normalising an already normalised key changes nothing. */
  lemma KeyFriendlyIdempotent(input: string)
    ensures KeyFriendlyString(KeyFriendlyString(input)) == KeyFriendlyString(input)
  {
    var once := KeyFriendlyString(input);
    KeyFriendlyCharwise(input);
    KeyFriendlyCharwise(once);
  }
}

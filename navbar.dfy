/** The greeting in the navigation bar (src/components/Navbar.jsx): `capitalizeName`. */
module Navbar {
  import opened Wrappers

  /**
   * `String.prototype.toUpperCase` on one character, for Basic Latin and Latin-1:
   * a-z and the Latin-1 small letters map to their capitals, 'ß' to "SS", 'ÿ' to 'Ÿ'
   * (U+0178) and 'µ' to 'Μ' (U+039C); every other character is left as it is.
   */
  function UpperCase(c: char): (r: string)
    ensures |r| == 1 || c == 'ß'
    ensures c < '\U{0080}' ==> |r| == 1 && r[0] < '\U{0080}'
  {
    if 'a' <= c <= 'z' then [(c as int - 32) as char]
    else if c == 'ß' then "SS"
    else if c == 'ÿ' then ['\U{0178}']
    else if c == 'µ' then ['\U{039C}']
    else if 'à' <= c <= 'þ' && c != '÷' then [(c as int - 32) as char]
    else [c]
  }

  /**
   * capitalizeName: a missing or empty name gives ""; otherwise the first character is
   * upper-cased and the rest is kept.
   */
  function CapitalizeName(name: Option<string>): (r: string)
    ensures name.None? || name.value == "" ==> r == ""
    ensures name.Some? && name.value != "" ==>
      && |r| == |UpperCase(name.value[0])| + |name.value| - 1
      && r[..|UpperCase(name.value[0])|] == UpperCase(name.value[0])
      && r[|UpperCase(name.value[0])|..] == name.value[1..]
  {
    if name.None? || name.value == "" then "" else UpperCase(name.value[0]) + name.value[1..]
  }

  /** Capitalizing keeps the length unless the name starts with 'ß'; so on ASCII names too. */
  lemma CapitalizeKeepsLength(name: string)
    requires name != [] && name[0] != 'ß'
    ensures |CapitalizeName(Some(name))| == |name|
    ensures forall k | 1 <= k < |name| :: CapitalizeName(Some(name))[k] == name[k]
  {
  }

  /** Capitalizing a capitalized name changes nothing. */
  lemma CapitalizeIdempotent(name: string)
    ensures CapitalizeName(Some(CapitalizeName(Some(name)))) == CapitalizeName(Some(name))
  {
  }
}
